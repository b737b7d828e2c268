/** The daily reminder job: on the odd days of the first ten of a month it
    lists the pending fee reminders for manual sending; it only reads the
    roster and the ledger. */
module CronJobs {
  import opened Common
  import opened Periods
  import opened Messages
  import opened FeeModel
  import opened WhatsAppService
  import opened StudentController
  import opened FeeController

  /** The `{month, year, day}` of a reminder day. */
  datatype ReminderInfo = ReminderInfo(month: int, year: int, day: int)

  /** shouldSendReminder: only the days 1 to 10 qualify, and of those only
      1, 3, 5, 7 and 9. */
  function ShouldSendReminder(today: Date): (r: Option<ReminderInfo>)
    ensures r.Some? <==> today.day in {1, 3, 5, 7, 9}
    ensures r.Some? ==> r.value == ReminderInfo(today.month, today.year, today.day)
  {
    if today.day < 1 || today.day > 10 then None
    else if today.day !in [1, 3, 5, 7, 9] then None
    else Some(ReminderInfo(today.month, today.year, today.day))
  }

  /** No reminder after the 10th, nor on an even day. */
  lemma ReminderDaysAreEarlyOdd(today: Date)
    ensures today.day > 10 ==> ShouldSendReminder(today).None?
    ensures today.day % 2 == 0 ==> ShouldSendReminder(today).None?
    ensures ShouldSendReminder(today).Some? ==> 1 <= today.day <= 9 && today.day % 2 == 1
  {
  }

  /** The lines logged for one overdue student. */
  datatype LogEntry = LogEntry(number: nat, studentName: string, phone: string, amount: int, dueDay: int, link: string)

  function LogEntryFor(number: nat, r: Reminder): LogEntry {
    LogEntry(number, r.studentName, r.phone, r.amount, DueDayOr10(r.feeDueDate), r.link)
  }

  /** logPendingFeeReminders: nothing on a non-reminder day; otherwise one
      numbered entry per pending reminder of the current period, in reminder
      order. The method has no `modifies` clause, so the roster and the
      ledger are left as they were. */
  method LogPendingFeeReminders(roster: Roster, ledger: FeeLedger, today: Date) returns (log: Option<seq<LogEntry>>)
    ensures ShouldSendReminder(today).None? <==> log.None?
    ensures log.Some? ==>
      var rs := PendingReminders(roster.students, PaidStudentIds(ledger.records, today.month, today.year),
        today.month, today.year, today);
      |log.value| == |rs| &&
      forall k :: 0 <= k < |rs| ==> log.value[k] == LogEntryFor(k + 1, rs[k])
  {
    var reminderInfo := ShouldSendReminder(today);
    if reminderInfo.None? {
      return None;
    }
    var month, year := reminderInfo.value.month, reminderInfo.value.year;
    var count, reminders := GetPendingFeeReminders(roster.students, ledger.records, month, year, today);
    var entries: seq<LogEntry> := [];
    var index := 0;
    while index < |reminders|
      invariant 0 <= index <= |reminders|
      invariant |entries| == index
      invariant forall k :: 0 <= k < index ==> entries[k] == LogEntryFor(k + 1, reminders[k])
    {
      entries := entries + [LogEntryFor(index + 1, reminders[index])];
      index := index + 1;
    }
    log := Some(entries);
  }
}
