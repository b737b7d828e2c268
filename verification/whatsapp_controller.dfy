/** The WhatsApp handlers: the reminder period defaulting shared by the
    reminder routes, and the announcement route, which records each
    announcement it sends in the announcement log. */
module WhatsAppController {
  import opened Common
  import opened Periods
  import opened Messages
  import opened StudentModel
  import opened FeeModel
  import opened Sequences
  import opened WhatsAppService

  /** `month ? parseInt(month) : now.getMonth() + 1`, and the same for the
      year: an absent query value falls back to today's period. */
  function ReminderPeriod(month: Option<int>, year: Option<int>, today: Date): (p: (int, int))
    ensures month.Some? ==> p.0 == month.value
    ensures month.None? ==> p.0 == today.month
    ensures year.Some? ==> p.1 == year.value
    ensures year.None? ==> p.1 == today.year
  {
    (match month case Some(m) => m case None => today.month,
     match year case Some(y) => y case None => today.year)
  }

  /** getReminderLink: the student must exist; the reminder asks for the
      student's own monthly fee for the requested (or current) period. */
  function ReminderLinkFor(students: seq<Student>, studentId: StudentId, month: Option<int>, year: Option<int>, today: Date): (r: Result<LinkInfo>)
    ensures r == Err(StudentNotFound) <==> FindStudent(students, studentId).None?
    ensures FindStudent(students, studentId).Some? ==>
      var p := ReminderPeriod(month, year, today);
      r == GetFeeReminderLink(students, studentId, p.0, p.1, FindStudent(students, studentId).value.monthlyFee)
  {
    match FindStudent(students, studentId)
    case None => Err(StudentNotFound)
    case Some(student) =>
      var p := ReminderPeriod(month, year, today);
      GetFeeReminderLink(students, studentId, p.0, p.1, student.monthlyFee)
  }

  /** For a roster whose records all passed the validators, a known student
      always gets a link, and the link carries the reminder for the student's
      monthly fee. */
  lemma ReminderLinkForStored(students: seq<Student>, studentId: StudentId, month: Option<int>, year: Option<int>, today: Date)
    requires forall i :: 0 <= i < |students| ==> ValidStudent(students[i])
    requires FindStudent(students, studentId).Some?
    ensures var r := ReminderLinkFor(students, studentId, month, year, today);
      var s := FindStudent(students, studentId).value;
      var p := ReminderPeriod(month, year, today);
      r.Ok? && r.value.phone == s.phone &&
      Contains(FeeReminderMessage(s.fullName, p.0, p.1, s.monthlyFee), AmountText(s.monthlyFee))
  {
    var s := FindStudent(students, studentId).value;
    var p := ReminderPeriod(month, year, today);
    StoredStudentHasLinks(students, studentId, p.0, p.1, s.monthlyFee);
  }

  /** getPendingReminders: the pending reminders for the requested (or
      current) period. */
  method PendingRemindersFor(students: seq<Student>, fees: seq<FeePayment>, month: Option<int>, year: Option<int>, today: Date)
    returns (count: nat, reminders: seq<Reminder>)
    ensures var p := ReminderPeriod(month, year, today);
      reminders == PendingReminders(students, PaidStudentIds(fees, p.0, p.1), p.0, p.1, today)
    ensures count == |reminders|
  {
    var p := ReminderPeriod(month, year, today);
    count, reminders := GetPendingFeeReminders(students, fees, p.0, p.1, today);
  }

  /** getGroupReminderLinkController: the group reminder for the requested (or
      current) period. */
  method GroupReminderFor(students: seq<Student>, fees: seq<FeePayment>, month: Option<int>, year: Option<int>, today: Date, env: string)
    returns (r: Result<GroupReminder>)
    ensures var p := ReminderPeriod(month, year, today);
      var rs := PendingReminders(students, PaidStudentIds(fees, p.0, p.1), p.0, p.1, today);
      (r == Err(NoOverdueStudents) <==> rs == []) &&
      (r.Ok? ==>
        r.value.isGroup && r.value.overdueCount == |rs| &&
        r.value.link == Some(GroupMessageLink(env, GroupReminderText(rs, p.0, p.1))))
  {
    var p := ReminderPeriod(month, year, today);
    r := GetGroupReminderLink(students, fees, p.0, p.1, today, env);
  }

  // ---------------------------------------------------------------------
  // Announcements
  // ---------------------------------------------------------------------

  /** A stored announcement; `sentAt` is a timestamp. */
  datatype Announcement = Announcement(
    announcementType: string,
    message: string,
    sentTo: seq<StudentId>,
    sentAt: int)

  /** The type enum of the Announcement schema. */
  predicate ValidAnnouncementType(t: string) {
    t == "holiday" || t == "timing_change" || t == "general"
  }

  predicate IsStudentLink(e: LinkEntry) { e.StudentLinkEntry? }

  function IsStudentLinkTest(): LinkEntry -> bool {
    (e: LinkEntry) => IsStudentLink(e)
  }

  function EntryStudentId(): LinkEntry -> StudentId {
    (e: LinkEntry) => if e.StudentLinkEntry? then e.studentId else 0
  }

  /** `sentTo`: no one for a group send, otherwise the student of each link. */
  function Recipients(result: AnnouncementLinks): seq<StudentId> {
    if result.isGroup then [] else Collect(result.links, IsStudentLinkTest(), EntryStudentId())
  }

  /** For a direct send, `sentTo` lists the student of every link, in link
      order; with every phone valid, that is every active student. */
  lemma RecipientsAreLinkedStudents(students: seq<Student>, message: string)
    ensures var links := StudentLinks(ActiveStudents(students), message);
      var ids := Recipients(AnnouncementLinks(|ActiveStudents(students)|, false, None, links));
      |ids| == |links| &&
      forall k :: 0 <= k < |links| ==> links[k].StudentLinkEntry? && ids[k] == links[k].studentId
    ensures (forall i :: 0 <= i < |students| ==> ValidPhone(students[i].phone)) ==>
      var active := ActiveStudents(students);
      Recipients(AnnouncementLinks(|active|, false, None, StudentLinks(active, message))) ==
        seq(|active|, k requires 0 <= k < |active| => active[k].id)
  {
    var active := ActiveStudents(students);
    var links := StudentLinks(active, message);
    StudentLinksAreEntries(active, message);
    RecipientsOfStudentEntries(|active|, links);
    if forall i :: 0 <= i < |students| ==> ValidPhone(students[i].phone) {
      AllActiveRecipients(students, message);
    }
  }

  /** With every phone valid, `sentTo` is the id of every active student. */
  lemma AllActiveRecipients(students: seq<Student>, message: string)
    requires forall i :: 0 <= i < |students| ==> ValidPhone(students[i].phone)
    ensures var active := ActiveStudents(students);
      Recipients(AnnouncementLinks(|active|, false, None, StudentLinks(active, message))) ==
        seq(|active|, k requires 0 <= k < |active| => active[k].id)
  {
    var active := ActiveStudents(students);
    var links := StudentLinks(active, message);
    forall i | 0 <= i < |active| ensures ValidPhone(active[i].phone) {
      assert active[i] in students;
    }
    StudentLinksComplete(active, message);
    RecipientsOfStudentEntries(|active|, links);
    var ids := Recipients(AnnouncementLinks(|active|, false, None, links));
    assert |ids| == |active|;
    assert forall k :: 0 <= k < |active| ==> ids[k] == active[k].id;
  }

  /** When every entry is a student's link, `sentTo` maps each to its student. */
  lemma RecipientsOfStudentEntries(total: nat, links: seq<LinkEntry>)
    requires forall k :: 0 <= k < |links| ==> links[k].StudentLinkEntry?
    ensures var ids := Recipients(AnnouncementLinks(total, false, None, links));
      |ids| == |links| && forall k :: 0 <= k < |links| ==> ids[k] == links[k].studentId
  {
    assert forall k :: 0 <= k < |links| ==> IsStudentLinkTest()(links[k]);
    CollectAll(links, IsStudentLinkTest(), EntryStudentId());
  }

  /** getAnnouncements: newest first, at most 50. */
  function Latest(entries: seq<Announcement>): (r: seq<Announcement>)
    ensures |r| == if |entries| < 50 then |entries| else 50
    ensures forall k :: 0 <= k < |r| ==> r[k] == entries[|entries| - 1 - k]
  {
    var newest := Reversed(entries);
    if |newest| < 50 then newest else newest[..50]
  }

  /** The announcement just recorded heads the history, followed by the
      ones before it. */
  lemma LatestAfterRecord(entries: seq<Announcement>, a: Announcement)
    ensures Latest(entries + [a])[0] == a
    ensures forall k :: 1 <= k < |Latest(entries + [a])| ==> Latest(entries + [a])[k] == Latest(entries)[k - 1]
  {
  }

  /** The announcement history, in creation order. */
  class AnnouncementLog {
    var entries: seq<Announcement>

    constructor ()
      ensures entries == []
    {
      entries := [];
    }

    /** getAnnouncementLinksController: type and message are required; the
        service's failure is passed on; the record is then saved, which the
        type enum can still reject; the response is the service's result. */
    method SendAnnouncement(students: seq<Student>, announcementType: string, message: string, useGroup: bool, env: string, now: int)
      returns (r: Result<AnnouncementLinks>)
      modifies this
      ensures r.Err? ==> entries == old(entries)
      ensures r.Ok? ==> entries == old(entries) + [Announcement(announcementType, message, Recipients(r.value), now)]
      ensures (announcementType == "" || message == "") <==> r == Err(TypeAndMessageRequired)
      ensures announcementType != "" && message != "" && !useGroup && ActiveStudents(students) == [] ==>
        r == Err(NoActiveStudents)
      ensures r.Ok? <==>
        (announcementType != "" && message != "" && ValidAnnouncementType(announcementType) &&
         (useGroup || ActiveStudents(students) != []))
      ensures r.Ok? && useGroup ==>
        var link := GroupMessageLink(env, AnnouncementMessage(announcementType, message));
        r.value == AnnouncementLinks(0, true, Some(link), [GroupLinkEntry(Some(link), GroupLabel)]) &&
        entries[|entries| - 1].sentTo == []
      ensures r.Ok? && !useGroup ==>
        r.value == AnnouncementLinks(|ActiveStudents(students)|, false, None,
          StudentLinks(ActiveStudents(students), AnnouncementMessage(announcementType, message)))
    {
      if announcementType == "" || message == "" {
        return Err(TypeAndMessageRequired);
      }
      var result := GetAnnouncementLinks(students, announcementType, message, useGroup, env);
      if result.Err? {
        return Err(result.error);
      }
      if !ValidAnnouncementType(announcementType) {
        return Err(ValidationFailed);
      }
      entries := entries + [Announcement(announcementType, message, Recipients(result.value), now)];
      r := Ok(result.value);
    }

    /** getAnnouncements. */
    function GetAnnouncements(): (r: seq<Announcement>)
      reads this
      ensures |r| == if |entries| < 50 then |entries| else 50
      ensures |entries| > 0 ==> r[0] == entries[|entries| - 1]
    {
      Latest(entries)
    }
  }
}
