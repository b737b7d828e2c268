/** The WhatsApp service's store-reading operations: the per-student
    reminder and confirmation links, the pending-fee reminder engine, the
    announcement links and the group reminder link. The roster and the
    ledger are passed in as sequences in creation order, today's date and
    the configured group link as parameters. */
module WhatsAppService {
  import opened Common
  import opened Periods
  import opened UriEncoding
  import opened Links
  import opened Messages
  import opened StudentModel
  import opened FeeModel
  import opened Sequences

  /** The `{link, phone, studentName}` of a successful per-student link. */
  datatype LinkInfo = LinkInfo(link: string, phone: string, studentName: string)

  /** getFeeReminderLink: not found for an unknown id, invalid phone when the
      phone has no digits, otherwise the wa.me link carrying the reminder. */
  function GetFeeReminderLink(students: seq<Student>, studentId: StudentId, month: int, year: int, amount: int): (r: Result<LinkInfo>)
    ensures FindStudent(students, studentId).None? <==> r == Err(StudentNotFound)
    ensures r == Err(InvalidPhoneNumber) <==>
      FindStudent(students, studentId).Some? && KeepDigits(FindStudent(students, studentId).value.phone) == ""
    ensures r.Ok? ==>
      var s := FindStudent(students, studentId).value;
      r.value.phone == s.phone && r.value.studentName == s.fullName &&
      r.value.link == WaMe + KeepDigits(s.phone) + TextParam +
        EncodeURIComponent(FeeReminderMessage(s.fullName, month, year, amount))
  {
    match FindStudent(students, studentId)
    case None => Err(StudentNotFound)
    case Some(s) =>
      match GenerateWhatsAppLink(s.phone, FeeReminderMessage(s.fullName, month, year, amount))
      case None => Err(InvalidPhoneNumber)
      case Some(link) => Ok(LinkInfo(link, s.phone, s.fullName))
  }

  /** getPaymentConfirmationLink: the same lookup and failure cases, with the
      confirmation message. */
  function GetPaymentConfirmationLink(students: seq<Student>, studentId: StudentId, amount: int, month: int, year: int): (r: Result<LinkInfo>)
    ensures FindStudent(students, studentId).None? <==> r == Err(StudentNotFound)
    ensures r == Err(InvalidPhoneNumber) <==>
      FindStudent(students, studentId).Some? && KeepDigits(FindStudent(students, studentId).value.phone) == ""
    ensures r.Ok? ==>
      var s := FindStudent(students, studentId).value;
      r.value.phone == s.phone && r.value.studentName == s.fullName &&
      r.value.link == WaMe + KeepDigits(s.phone) + TextParam +
        EncodeURIComponent(PaymentConfirmationMessage(s.fullName, amount, month, year))
  {
    match FindStudent(students, studentId)
    case None => Err(StudentNotFound)
    case Some(s) =>
      match GenerateWhatsAppLink(s.phone, PaymentConfirmationMessage(s.fullName, amount, month, year))
      case None => Err(InvalidPhoneNumber)
      case Some(link) => Ok(LinkInfo(link, s.phone, s.fullName))
  }

  /** A student registered in the roster never hits the invalid-phone case. */
  lemma StoredStudentHasLinks(students: seq<Student>, studentId: StudentId, month: int, year: int, amount: int)
    requires forall i :: 0 <= i < |students| ==> ValidStudent(students[i])
    requires FindStudent(students, studentId).Some?
    ensures GetFeeReminderLink(students, studentId, month, year, amount).Ok?
    ensures GetPaymentConfirmationLink(students, studentId, amount, month, year).Ok?
  {
    var s := FindStudent(students, studentId).value;
    ValidPhoneHasLink(s.phone, FeeReminderMessage(s.fullName, month, year, amount));
    ValidPhoneHasLink(s.phone, PaymentConfirmationMessage(s.fullName, amount, month, year));
  }

  // ---------------------------------------------------------------------
  // The pending-fee reminder engine
  // ---------------------------------------------------------------------

  predicate IsActive(s: Student) { s.isActive }

  /** `Student.find({isActive: true})`, in roster order. */
  function ActiveStudents(students: seq<Student>): (r: seq<Student>)
    ensures |r| <= |students|
    ensures forall s :: s in r <==> s in students && s.isActive
  {
    Select(students, IsActive)
  }

  function NotPaid(paidIds: set<StudentId>): Student -> bool {
    (s: Student) => s.id !in paidIds
  }

  /** The `filter` that drops the students whose id is in `paidIds`. */
  function UnpaidStudents(students: seq<Student>, paidIds: set<StudentId>): (r: seq<Student>)
    ensures |r| <= |students|
    ensures forall s :: s in r <==> s in students && s.id !in paidIds
  {
    Select(students, NotPaid(paidIds))
  }

  function ReminderMessageFor(s: Student, month: int, year: int): string {
    FeeReminderMessage(s.fullName, month, year, s.monthlyFee)
  }

  function ReminderLink(s: Student, month: int, year: int): Option<string> {
    GenerateWhatsAppLink(s.phone, ReminderMessageFor(s, month, year))
  }

  /** The entry pushed for a student whose phone gives a link: the amount is
      the monthly fee and the due day has the `|| 10` fallback applied. */
  function MakeReminder(s: Student, month: int, year: int): Reminder {
    var link := match ReminderLink(s, month, year) case Some(l) => l case None => "";
    Reminder(s.id, s.fullName, s.phone, s.monthlyFee, DueDayOr10(s.feeDueDate), true, link)
  }

  function ReminderMaker(month: int, year: int): Student -> Reminder {
    s => MakeReminder(s, month, year)
  }

  /** The loop body's condition: overdue, and the phone gives a link. */
  predicate Remindable(s: Student, month: int, year: int, today: Date) {
    IsOverdue(s.feeDueDate, month, year, today) && ReminderLink(s, month, year).Some?
  }

  function RemindableTest(month: int, year: int, today: Date): Student -> bool {
    s => Remindable(s, month, year, today)
  }

  /** The loop over the unpaid students, pushing one entry per remindable one. */
  function OverdueReminders(students: seq<Student>, month: int, year: int, today: Date): seq<Reminder> {
    Collect(students, RemindableTest(month, year, today), ReminderMaker(month, year))
  }

  /** Whether a roster entry earns a reminder: active, not among the payers,
      overdue, and with a phone that gives a link. */
  predicate Qualifies(s: Student, paidIds: set<StudentId>, month: int, year: int, today: Date) {
    s.isActive && s.id !in paidIds && Remindable(s, month, year, today)
  }

  function QualifiesTest(paidIds: set<StudentId>, month: int, year: int, today: Date): Student -> bool {
    s => Qualifies(s, paidIds, month, year, today)
  }

  function UnpaidRemindableTest(paidIds: set<StudentId>, month: int, year: int, today: Date): Student -> bool {
    (s: Student) => s.id !in paidIds && Remindable(s, month, year, today)
  }

  /** The reminders in one pass over the roster. */
  function PendingReminders(students: seq<Student>, paidIds: set<StudentId>, month: int, year: int, today: Date): seq<Reminder> {
    Collect(students, QualifiesTest(paidIds, month, year, today), ReminderMaker(month, year))
  }

  /** Filtering the active ones, then the unpaid ones, then looping, is the
      single pass. */
  lemma StagedPendingReminders(students: seq<Student>, paidIds: set<StudentId>, month: int, year: int, today: Date)
    ensures OverdueReminders(UnpaidStudents(ActiveStudents(students), paidIds), month, year, today) ==
      PendingReminders(students, paidIds, month, year, today)
  {
    UnpaidStage(ActiveStudents(students), paidIds, month, year, today);
    ActiveStage(students, paidIds, month, year, today);
  }

  lemma UnpaidStage(active: seq<Student>, paidIds: set<StudentId>, month: int, year: int, today: Date)
    ensures OverdueReminders(UnpaidStudents(active, paidIds), month, year, today) ==
      Collect(active, UnpaidRemindableTest(paidIds, month, year, today), ReminderMaker(month, year))
  {
    CollectOfSelect(active, NotPaid(paidIds), RemindableTest(month, year, today),
      UnpaidRemindableTest(paidIds, month, year, today), ReminderMaker(month, year));
  }

  lemma ActiveStage(students: seq<Student>, paidIds: set<StudentId>, month: int, year: int, today: Date)
    ensures Collect(ActiveStudents(students), UnpaidRemindableTest(paidIds, month, year, today), ReminderMaker(month, year)) ==
      PendingReminders(students, paidIds, month, year, today)
  {
    CollectOfSelect(students, IsActive, UnpaidRemindableTest(paidIds, month, year, today),
      QualifiesTest(paidIds, month, year, today), ReminderMaker(month, year));
  }

  /** getPendingFeeReminders: the active students, the set of ids with a paid
      record for (month, year), the unpaid ones, then a loop that pushes an
      entry for each overdue student whose phone gives a link. */
  method GetPendingFeeReminders(students: seq<Student>, fees: seq<FeePayment>, month: int, year: int, today: Date)
    returns (count: nat, reminders: seq<Reminder>)
    ensures reminders == PendingReminders(students, PaidStudentIds(fees, month, year), month, year, today)
    ensures count == |reminders|
  {
    var active := ActiveStudents(students);
    var paidIds := PaidStudentIds(fees, month, year);
    var pending := UnpaidStudents(active, paidIds);
    reminders := [];
    var i := 0;
    while i < |pending|
      invariant 0 <= i <= |pending|
      invariant reminders == OverdueReminders(pending[..i], month, year, today)
    {
      OverdueStep(pending, i, month, year, today);
      reminders := PushIfOverdue(reminders, pending[i], month, year, today);
      i := i + 1;
    }
    TakeAll(pending);
    StagedPendingReminders(students, paidIds, month, year, today);
    count := |reminders|;
  }

  /** The body of getPendingFeeReminders' loop for one student: the reminder
      is pushed when the student is overdue and the phone gives a link. */
  method PushIfOverdue(reminders: seq<Reminder>, student: Student, month: int, year: int, today: Date)
    returns (next: seq<Reminder>)
    ensures next == reminders +
      (if RemindableTest(month, year, today)(student) then [ReminderMaker(month, year)(student)] else [])
  {
    next := reminders;
    ReminderStep(student, month, year, today);
    if IsOverdue(student.feeDueDate, month, year, today) {
      var message := ReminderMessageFor(student, month, year);
      var link := GenerateWhatsAppLink(student.phone, message);
      if link.Some? {
        next := next + [Reminder(student.id, student.fullName, student.phone,
          student.monthlyFee, DueDayOr10(student.feeDueDate), true, link.value)];
      }
    }
  }

  /** One more student extends the collected reminders by at most its entry. */
  lemma OverdueStep(pending: seq<Student>, i: nat, month: int, year: int, today: Date)
    requires i < |pending|
    ensures OverdueReminders(pending[..i + 1], month, year, today) ==
      OverdueReminders(pending[..i], month, year, today) +
        (if RemindableTest(month, year, today)(pending[i]) then [ReminderMaker(month, year)(pending[i])] else [])
  {
    TakeSnoc(pending, i);
    CollectSnoc(pending[..i], pending[i], RemindableTest(month, year, today), ReminderMaker(month, year));
  }

  /** The loop body's test and entry are the remindable test and the reminder builder. */
  lemma ReminderStep(student: Student, month: int, year: int, today: Date)
    ensures var link := GenerateWhatsAppLink(student.phone, ReminderMessageFor(student, month, year));
      (RemindableTest(month, year, today)(student) <==> IsOverdue(student.feeDueDate, month, year, today) && link.Some?) &&
      (link.Some? ==> ReminderMaker(month, year)(student) == Reminder(student.id, student.fullName, student.phone,
        student.monthlyFee, DueDayOr10(student.feeDueDate), true, link.value))
  {
  }

  /** The roster positions of the students that earn a reminder, in order. */
  function ReminderOrigins(students: seq<Student>, paidIds: set<StudentId>, month: int, year: int, today: Date): seq<nat> {
    Positions(students, QualifiesTest(paidIds, month, year, today))
  }

  /** Each reminder comes from a qualifying roster entry and carries that
      student's id, name, phone, monthly fee, due day (with the `|| 10`
      fallback) and link; the entries keep roster order; and every qualifying
      student gets one. */
  lemma RemindersTrace(students: seq<Student>, paidIds: set<StudentId>, month: int, year: int, today: Date)
    ensures var rs := PendingReminders(students, paidIds, month, year, today);
      var idx := ReminderOrigins(students, paidIds, month, year, today);
      |idx| == |rs| &&
      (forall k :: 0 <= k < |idx| ==>
        idx[k] < |students| &&
        Qualifies(students[idx[k]], paidIds, month, year, today) &&
        rs[k] == MakeReminder(students[idx[k]], month, year)) &&
      (forall k, l :: 0 <= k < l < |idx| ==> idx[k] < idx[l]) &&
      (forall i :: 0 <= i < |students| && Qualifies(students[i], paidIds, month, year, today) ==> i in idx)
  {
    CollectTrace(students, QualifiesTest(paidIds, month, year, today), ReminderMaker(month, year));
  }

  /** What a reminder built for a qualifying student holds. */
  lemma ReminderFields(s: Student, paidIds: set<StudentId>, month: int, year: int, today: Date)
    requires Qualifies(s, paidIds, month, year, today)
    ensures var r := MakeReminder(s, month, year);
      r.studentId == s.id && r.amount == s.monthlyFee && r.feeDueDate == DueDayOr10(s.feeDueDate) &&
      r.overdue && Some(r.link) == GenerateWhatsAppLink(s.phone, FeeReminderMessage(s.fullName, month, year, s.monthlyFee))
  {
  }

  /** In a roster whose records passed the validators, every active student
      without a paid record who is overdue gets a reminder: none is skipped
      for its phone. */
  lemma ValidRosterNoneSkipped(students: seq<Student>, paidIds: set<StudentId>, month: int, year: int, today: Date, i: nat)
    requires forall j :: 0 <= j < |students| ==> ValidStudent(students[j])
    requires i < |students| && students[i].isActive && students[i].id !in paidIds
    requires IsOverdue(students[i].feeDueDate, month, year, today)
    ensures i in ReminderOrigins(students, paidIds, month, year, today)
  {
    var s := students[i];
    ValidPhoneHasLink(s.phone, ReminderMessageFor(s, month, year));
    RemindersTrace(students, paidIds, month, year, today);
  }

  // ---------------------------------------------------------------------
  // Announcement links
  // ---------------------------------------------------------------------

  const GroupLabel := "WhatsApp Group"

  /** One entry of `links`: the group entry, or a student's own link. */
  datatype LinkEntry =
    | GroupLinkEntry(groupLink: Option<string>, labelText: string)
    | StudentLinkEntry(studentId: StudentId, studentName: string, phone: string, link: string)

  datatype AnnouncementLinks = AnnouncementLinks(
    totalStudents: nat,
    isGroup: bool,
    groupLink: Option<string>,
    links: seq<LinkEntry>)

  function HasLinkTest(message: string): Student -> bool {
    (s: Student) => GenerateWhatsAppLink(s.phone, message).Some?
  }

  /** The entry pushed for a student whose phone gives a link. */
  function StudentEntry(s: Student, message: string): LinkEntry {
    var link := match GenerateWhatsAppLink(s.phone, message) case Some(l) => l case None => "";
    StudentLinkEntry(s.id, s.fullName, s.phone, link)
  }

  function StudentEntryMaker(message: string): Student -> LinkEntry {
    s => StudentEntry(s, message)
  }

  /** The loop over the active students: a student whose phone gives no link
      is skipped, not failed. */
  function StudentLinks(students: seq<Student>, message: string): (r: seq<LinkEntry>)
    ensures |r| <= |students|
  {
    Collect(students, HasLinkTest(message), StudentEntryMaker(message))
  }

  /** Entry k is the link of the student at the k-th position whose phone
      gives a link, in roster order. */
  lemma StudentLinksTrace(students: seq<Student>, message: string)
    ensures var links := StudentLinks(students, message);
      var idx := Positions(students, HasLinkTest(message));
      |idx| == |links| &&
      (forall k :: 0 <= k < |idx| ==>
        idx[k] < |students| &&
        GenerateWhatsAppLink(students[idx[k]].phone, message).Some? &&
        links[k] == StudentLinkEntry(students[idx[k]].id, students[idx[k]].fullName, students[idx[k]].phone,
          GenerateWhatsAppLink(students[idx[k]].phone, message).value)) &&
      (forall k, l :: 0 <= k < l < |idx| ==> idx[k] < idx[l]) &&
      (forall i :: 0 <= i < |students| && GenerateWhatsAppLink(students[i].phone, message).Some? ==> i in idx)
  {
    CollectTrace(students, HasLinkTest(message), StudentEntryMaker(message));
  }

  /** Every entry of the loop's list is a student's own link. */
  lemma {:induction false} StudentLinksAreEntries(students: seq<Student>, message: string)
    ensures var links := StudentLinks(students, message);
      forall k :: 0 <= k < |links| ==> links[k].StudentLinkEntry?
  {
    if students != [] {
      var front := students[..|students| - 1];
      StudentLinksAreEntries(front, message);
      var links := StudentLinks(students, message);
      var a := StudentLinks(front, message);
      var x := students[|students| - 1];
      assert links == a + (if HasLinkTest(message)(x) then [StudentEntryMaker(message)(x)] else []);
    }
  }

  /** When every phone passes the validator no student is skipped: entry k is
      the k-th student's link. */
  lemma StudentLinksComplete(students: seq<Student>, message: string)
    requires forall i :: 0 <= i < |students| ==> ValidPhone(students[i].phone)
    ensures |StudentLinks(students, message)| == |students|
    ensures forall k :: 0 <= k < |students| ==>
      StudentLinks(students, message)[k].StudentLinkEntry? &&
      StudentLinks(students, message)[k].studentId == students[k].id
  {
    forall i | 0 <= i < |students| ensures HasLinkTest(message)(students[i]) {
      ValidPhoneHasLink(students[i].phone, message);
    }
    CollectAll(students, HasLinkTest(message), StudentEntryMaker(message));
  }

  /** The group link the announcements and the group reminder use. */
  function GroupMessageLink(env: string, message: string): (r: string)
    ensures GenerateWhatsAppGroupLink(GetWhatsAppGroupLink(env), message) == Some(r)
  {
    GroupHost + InviteToken(GetWhatsAppGroupLink(env)) + TextParam + EncodeURIComponent(message)
  }

  /** getAnnouncementLinks: with `useGroup`, one group entry and no students
      counted; otherwise the active students' links, or an error when there
      is no active student. */
  method GetAnnouncementLinks(students: seq<Student>, announcementType: string, message: string, useGroup: bool, env: string)
    returns (r: Result<AnnouncementLinks>)
    ensures useGroup ==>
      var link := GroupMessageLink(env, AnnouncementMessage(announcementType, message));
      r == Ok(AnnouncementLinks(0, true, Some(link), [GroupLinkEntry(Some(link), GroupLabel)]))
    ensures !useGroup && ActiveStudents(students) == [] ==> r == Err(NoActiveStudents)
    ensures !useGroup && ActiveStudents(students) != [] ==>
      r.Ok? && !r.value.isGroup && r.value.groupLink.None? &&
      r.value.totalStudents == |ActiveStudents(students)| &&
      r.value.links == StudentLinks(ActiveStudents(students), AnnouncementMessage(announcementType, message)) &&
      |r.value.links| <= r.value.totalStudents
  {
    var announcement := AnnouncementMessage(announcementType, message);
    if useGroup {
      var groupLink := GetWhatsAppGroupLink(env);
      var link := GenerateWhatsAppGroupLink(groupLink, announcement);
      return Ok(AnnouncementLinks(0, true, link, [GroupLinkEntry(link, GroupLabel)]));
    }
    var active := ActiveStudents(students);
    if |active| == 0 {
      return Err(NoActiveStudents);
    }
    var links: seq<LinkEntry> := [];
    var i := 0;
    while i < |active|
      invariant 0 <= i <= |active|
      invariant links == StudentLinks(active[..i], announcement)
    {
      var student := active[i];
      TakeSnoc(active, i);
      CollectSnoc(active[..i], student, HasLinkTest(announcement), StudentEntryMaker(announcement));
      var link := GenerateWhatsAppLink(student.phone, announcement);
      if link.Some? {
        links := links + [StudentLinkEntry(student.id, student.fullName, student.phone, link.value)];
      }
      i := i + 1;
    }
    TakeAll(active);
    r := Ok(AnnouncementLinks(|active|, false, None, links));
  }

  // ---------------------------------------------------------------------
  // Group reminder link
  // ---------------------------------------------------------------------

  datatype GroupReminder = GroupReminder(link: Option<string>, isGroup: bool, overdueCount: nat)

  /** getGroupReminderLink: fails when nobody is overdue; otherwise the group
      link carrying the numbered list of every pending reminder. */
  method GetGroupReminderLink(students: seq<Student>, fees: seq<FeePayment>, month: int, year: int, today: Date, env: string)
    returns (r: Result<GroupReminder>)
    ensures var rs := PendingReminders(students, PaidStudentIds(fees, month, year), month, year, today);
      (r == Err(NoOverdueStudents) <==> rs == []) &&
      (r.Ok? ==>
        r.value.isGroup && r.value.overdueCount == |rs| >= 1 &&
        r.value.link == Some(GroupMessageLink(env, GroupReminderText(rs, month, year))))
  {
    var count, reminders := GetPendingFeeReminders(students, fees, month, year, today);
    if |reminders| == 0 {
      return Err(NoOverdueStudents);
    }
    var reminderMessage := GenerateGroupReminderMessage(reminders, month, year);
    var groupLink := GetWhatsAppGroupLink(env);
    var link := GenerateWhatsAppGroupLink(groupLink, reminderMessage);
    r := Ok(GroupReminder(link, true, |reminders|));
  }
}
