# Madarsa fee tracker — a Dafny model

This is a model of the fee-tracking backend of a madarsa (a religious school). The
backend keeps three stores:

- a **roster** of students: name, phone, flat, monthly fee, due day and an active flag;
- a **ledger** of monthly fee payments, with at most one record per student and period
  (month, year);
- a log of **announcements**.

On these stores it serves:

- student CRUD, with soft delete;
- fee recording and the fee queries;
- the dashboard figures, and a month-by-month breakdown for charts;
- WhatsApp links that staff open by hand: a reminder or payment confirmation for one
  student, an announcement to every active student or to the group, and a group
  message listing every overdue student;
- a daily job that, on the odd days from the 1st to the 9th, lists the pending
  reminders.

The model is organised by the system's own structure:

| file | module | what it holds |
|---|---|---|
| `common.dfy` | `Common` | `Option`, the `Result` envelope, the error conditions, decimal rendering of numbers |
| `periods.dfy` | `Periods` | calendar periods: previous month, the breakdown's month shift, the overdue rule |
| `uri_encoding.dfy` | `UriEncoding` | `encodeURIComponent` over UTF-8, and a percent decoder as its partner |
| `links.dfy` | `Links` | phone formatting, the `wa.me` link, the group-invite link, the configured group link |
| `messages.dfy` | `Messages` | the message templates, and the group reminder built by `+=` in a loop |
| `student_model.dfy` | `StudentModel` | the Student schema and its validators, and lookup by id |
| `fee_model.dfy` | `FeeModel` | the Fee schema, the unique period index, period queries and sums |
| `sequences.dfy` | `Sequences` | the generic `filter`, the `push`-in-a-loop, the `sort` and `reverse` shapes |
| `whatsapp_service.dfy` | `WhatsAppService` | the WhatsApp service: per-student links, the pending-reminder engine, announcement links, the group reminder |
| `dashboard.dfy` | `Dashboard` | dashboard statistics, and the monthly breakdown (an in-place `reverse` on an array) |
| `fee_controller.dfy` | `FeeController` | the ledger as class `FeeLedger`: create fee and the read handlers |
| `student_controller.dfy` | `StudentController` | the roster as class `Roster`: create, update, soft-delete and list students |
| `whatsapp_controller.dfy` | `WhatsAppController` | the WhatsApp handlers; the announcement log as class `AnnouncementLog` |
| `cron_jobs.dfy` | `CronJobs` | the reminder-day test and the job that lists the reminders |

How the source's effects are modelled:

- **Stores.** The database collections are the fields of the classes `Roster`, `FeeLedger`
  and `AnnouncementLog`, as sequences in creation order. A record's id grows with its
  creation time, so "created later" is "larger id".
- **Handlers that write** are methods that modify their class. Each is tied to a pure
  `...Outcome` function giving the response and the new store. Each keeps the store's
  invariant: every record passed the schema validators, ids increase, and the unique
  indexes hold.
- **Read handlers and the service** are functions over the stores. Where the source builds
  a result in a loop, the model is a method with that loop, proved equal to a specification
  function.
- **The environment is made of parameters:**
  - today's date is `today: Date`;
  - `Date.now` is `now: int`;
  - the `WHATSAPP_GROUP_LINK` variable is `env: string`, where `""` means unset.

## Model

| member | source | states |
|---|---|---|
| Common.NatToString | services/whatsappService.js:63-67 | the interpolated number is a non-empty string of digits with no leading zero |
| Common.IntToString | services/whatsappService.js:63-67 | the rendering is all digits exactly when the number is non-negative |
| Common.NatToStringRoundTrip | services/whatsappService.js:65 | the amount written into a message reads back as the same number |
| Periods.PreviousPeriod | controllers/dashboardController.js:26-31 | the dashboard's previous period is exactly one month earlier in time, and its month stays within 1..12 |
| Periods.PreviousPeriodRollover | controllers/dashboardController.js:26-31 | January rolls back to December of the year before; other months step back within the year |
| Periods.ShiftBack | controllers/dashboardController.js:87-93 | the breakdown's i-th period is i months before the current one in time |
| Periods.ShiftBackInRange | controllers/dashboardController.js:87-93 | the single year wrap yields a month in 1..12 exactly for the first currentMonth + 12 entries |
| Periods.ShiftBackOneIsPrevious | controllers/dashboardController.js:87-93 | one month back in the breakdown is the dashboard's previous month; zero months back is today's period |
| Periods.IsOverdueChronological | services/whatsappService.js:268-287 | a period is overdue iff it lies before today's period, or is today's period with the due day (10 when unset) passed |
| UriEncoding.EncodeURIComponent | services/whatsappService.js:24 | the encoded text holds only unreserved characters, '%' and hex digits, and text that is already unreserved is unchanged |
| UriEncoding.PercentBytesDecode | services/whatsappService.js:24 | decoding the escapes of a byte string gives back those bytes, followed by the decoding of what comes after |
| UriEncoding.EncodeDecodeRoundTrip | services/whatsappService.js:24 | decoding the encoded message gives exactly the UTF-8 bytes of the original message |
| Links.KeepDigits | services/whatsappService.js:11 | the result is all digits and no longer than the input, and an all-digit input is kept as it is |
| Links.StripPrefixKeepsDigits | services/whatsappService.js:9 | removing a digit-free prefix such as `whatsapp:` or `+` changes none of the phone's digits |
| Links.FormatPhoneNumber | services/whatsappService.js:6-13 | no result only for an empty phone; otherwise exactly the phone's digits, in order |
| Links.GenerateWhatsAppLink | services/whatsappService.js:18-26 | no link exactly when the phone has no digits; otherwise `https://wa.me/<digits>?text=<encoded message>` |
| Links.WhatsAppLinkRoundTrip | services/whatsappService.js:18-26 | reading a generated link back gives the phone's digits and the message's bytes |
| Links.IndexOf | services/whatsappService.js:38-39 | the index found is an occurrence with none before it; no result means no occurrence at all |
| Links.SplitFirstIsPrefix | services/whatsappService.js:39 | `split(sep)[0]` is a prefix of the text that does not contain the separator, and it ends at the end of the text or exactly where the first separator begins |
| Links.GenerateWhatsAppGroupLink | services/whatsappService.js:31-44 | no link exactly for an empty code; otherwise the chat.whatsapp.com link with the invite token and the encoded message |
| Links.InviteTokenVerbatim | services/whatsappService.js:37-40 | a code without `chat.whatsapp.com/` is used as the token as it is |
| Links.InviteTokenAfterMarker | services/whatsappService.js:38-39 | the token from a full URL follows the first `chat.whatsapp.com/` directly, contains neither `?` nor that marker, and ends at the first `?`, at the next marker or at the end of the code |
| Links.InviteUrlRoundTrip | services/whatsappService.js:36-43 | an invite URL gives back its token, with no query or with any query at all (slashes and further markers included) |
| Links.GetWhatsAppGroupLink | services/whatsappService.js:49-53 | the group link is never empty, and is the configured one whenever one is set |
| Links.DefaultGroupLinkToken | services/whatsappService.js:49-53 | without configuration a group link always exists and targets the default group |
| Messages.FeeReminderMessage | services/whatsappService.js:58-68 | the reminder names the student, the amount as PKR<amount>, and the month and year |
| Messages.PaymentConfirmationMessage | services/whatsappService.js:102-113 | the confirmation names the student, the amount as PKR<amount>, and the month and year |
| Messages.AnnouncementMessage | services/whatsappService.js:147-155 | the header is chosen by type (holiday, timing_change, or general for any other type), and the message ends the text unchanged |
| Messages.EntryTexts | services/whatsappService.js:226-230 | one entry per overdue student, the k-th numbered k + 1 |
| Messages.GenerateGroupReminderMessage | services/whatsappService.js:217-236 | the loop of `+=` builds the header, every numbered entry in order, then the closing lines |
| Messages.GroupEntriesNumbered | services/whatsappService.js:226-230 | the k-th overdue student's entry appears, numbered k + 1, right after the header and the entries before it |
| StudentModel.NewStudent | models/Student.js:42-45 | the created student keeps the given id, name, phone, flat name, flat number and numbers, and is active unless the request says false |
| StudentModel.FindStudent | services/whatsappService.js:75-78 | the student found has the id asked for; none is found exactly when no student has it |
| StudentModel.ValidPhoneHasLink | models/Student.js:14-19 | a phone that passes the validator has 2 to 15 digits, so a WhatsApp link always exists for it |
| StudentModel.StoredDueDayUsed | models/Student.js:36-41 | for a stored student the fallback to day 10 never fires, and the current period is overdue once the day passes the student's own due day |
| FeeModel.InPeriod | controllers/feeController.js:156-159 | the period query holds exactly the records of that month and year |
| FeeModel.PaidInPeriod | controllers/dashboardController.js:17-21 | the paid query holds exactly the paid records of that month and year |
| FeeModel.PaidStudentIds | services/whatsappService.js:298-304 | an id is in the paid set exactly when that student has a paid record for the period |
| FeeModel.SumAmountsNonNegative | models/Fee.js:9-13 | with the schema's non-negative amounts, a period's total is non-negative |
| FeeModel.SumAmountsAppend | controllers/dashboardController.js:22 | the `reduce` total of two record lists placed end to end is the sum of their totals |
| FeeModel.RecordPayment | controllers/dashboardController.js:17-23 | a new paid record for a period adds its amount to that period's total and one to its count; any other record leaves both unchanged |
| FeeModel.PaidInPeriodDistinctStudents | models/Fee.js:47 | under the unique index, a period's paid records belong to distinct students |
| FeeModel.DistinctStudentsCount | models/Fee.js:47 | records of distinct students give as many student ids as there are records |
| FeeModel.PaidCountIsStudentCount | models/Fee.js:47 | the dashboard's paid count is the number of distinct students who paid |
| WhatsAppService.GetFeeReminderLink | services/whatsappService.js:73-97 | the error is StudentNotFound exactly for an unknown id and InvalidPhoneNumber exactly for a phone without digits; otherwise the wa.me link carries the reminder |
| WhatsAppService.GetPaymentConfirmationLink | services/whatsappService.js:118-142 | the same two error cases; otherwise the wa.me link carries the confirmation |
| WhatsAppService.StoredStudentHasLinks | services/whatsappService.js:81-85 | a student whose record passed the validators never hits the invalid-phone case |
| WhatsAppService.ActiveStudents | services/whatsappService.js:295 | holds exactly the active students |
| WhatsAppService.UnpaidStudents | services/whatsappService.js:306-308 | holds exactly the students whose id is not in the paid set |
| WhatsAppService.StagedPendingReminders | services/whatsappService.js:295-337 | filtering active students, then unpaid ones, then looping, equals one pass over the roster with the combined test |
| WhatsAppService.GetPendingFeeReminders | services/whatsappService.js:293-348 | the reminders are the pending reminders for the period's paid set, and the count is their number |
| WhatsAppService.PushIfOverdue | services/whatsappService.js:313-334 | one pass of the loop pushes that student's reminder exactly when the student is overdue and the phone gives a link, and pushes nothing otherwise |
| WhatsAppService.OverdueStep | services/whatsappService.js:312-337 | one more loop iteration adds at most that student's reminder |
| WhatsAppService.ReminderStep | services/whatsappService.js:313-334 | the loop pushes an entry exactly when the student is overdue and has a link, and pushes that student's reminder |
| WhatsAppService.RemindersTrace | services/whatsappService.js:306-337 | each reminder comes from a qualifying student and carries that student's data, roster order is kept, and every qualifying student gets one |
| WhatsAppService.ReminderFields | services/whatsappService.js:326-334 | a reminder carries the student's id and monthly fee, the due day with the 10 fallback, overdue = true, and the reminder link |
| WhatsAppService.ValidRosterNoneSkipped | services/whatsappService.js:323-325 | with a validated roster, every active, unpaid, overdue student gets a reminder |
| WhatsAppService.StudentLinks | services/whatsappService.js:188-200 | there are never more links than students |
| WhatsAppService.StudentLinksTrace | services/whatsappService.js:190-200 | each link belongs to an active student whose phone gives one, in roster order, and no such student is skipped |
| WhatsAppService.StudentLinksAreEntries | services/whatsappService.js:190-200 | every link the loop pushes is a per-student link, none of them the group link |
| WhatsAppService.StudentLinksComplete | services/whatsappService.js:190-200 | when every phone is valid, the k-th link is the k-th active student's |
| WhatsAppService.GroupMessageLink | services/whatsappService.js:166-167 | the configured or default group link always yields a group message link |
| WhatsAppService.GetAnnouncementLinks | services/whatsappService.js:160-212 | a group send gives one group entry and a total of 0; otherwise NoActiveStudents when none is active, else the active students' links with totalStudents counting all active students |
| WhatsAppService.GetGroupReminderLink | services/whatsappService.js:241-263 | fails exactly when no reminder is pending; otherwise the group link carries the numbered list, and overdueCount is the number of reminders |
| Dashboard.GetDashboardStats | controllers/dashboardController.js:7-72 | counts the active students; this month and the previous one each get the sum and the number of their paid records; pendingCount never exceeds the active count |
| Dashboard.PendingCountSplit | controllers/dashboardController.js:42-48 | pending students plus active payers make up all active students |
| Dashboard.StatsTotals | controllers/dashboardController.js:17-39 | with valid records under the unique index, the totals are non-negative and each paid count is the number of distinct paying students |
| Dashboard.Breakdown | controllers/dashboardController.js:86-114 | the breakdown has one entry per month requested |
| Dashboard.ReverseInPlace | controllers/dashboardController.js:114 | the array afterwards holds the old entries in reverse order |
| Dashboard.GetMonthlyFeesBreakdown | controllers/dashboardController.js:77-123 | the loop, then the in-place reverse, gives the breakdown for `months` entries (6 when absent, none when negative) |
| Dashboard.MonthEntry | controllers/dashboardController.js:87-110 | one pass of the loop gives the entry for `i` months back, with a single year wrap, and that period's paid total and count |
| Dashboard.BreakdownChronological | controllers/dashboardController.js:86-114 | the entries run oldest first, one month apart, ending at the current period |
| Dashboard.BreakdownMonthRange | controllers/dashboardController.js:87-93 | an entry's month is in 1..12 exactly while fewer than currentMonth + 12 months back, and is always the right distance back in time |
| Dashboard.BreakdownTotals | controllers/dashboardController.js:95-110 | each entry's total and count are those of its own period's paid records, and the total is non-negative |
| FeeController.FindPeriodRecord | controllers/feeController.js:89-93 | a record is found for the student and period, of any status, exactly when one exists |
| FeeController.NewFee | controllers/feeController.js:103-108 | the created record is valid, paid, belongs to the requested student and period, and stores the given id, the body's amount, payment method and notes, and the body's paidDate or else now |
| FeeController.CreateFeeOutcome | controllers/feeController.js:77-140 | each error holds exactly under its condition (unknown student, paid record for the period, a failed validator, a non-paid record for the period) and leaves the ledger unchanged; success appends exactly the new paid record |
| FeeController.CreateFeeKeepsInvariant | models/Fee.js:47 | creating a fee keeps every record valid, the ids increasing and at most one record per student and period |
| FeeController.AppendKeepsLedgerInvariant | models/Fee.js:47 | appending a valid record for a new period with the next id keeps the ledger invariant |
| FeeController.CreateFeeLinkOptional | controllers/feeController.js:114-128 | a failed confirmation link does not fail creation; whatsappLink is null exactly when the link fails |
| FeeController.FeeLedger.CreateFee | controllers/feeController.js:77-140 | the response and the new ledger are those of CreateFeeOutcome; the invariant is kept; the next id advances only on success |
| FeeController.FeeLedger.GetFee | controllers/feeController.js:35-53 | returns the record with that id; FeeNotFound exactly when there is none |
| FeeController.FindFee | controllers/feeController.js:37-44 | the record found has the id asked for; FeeNotFound exactly when no record has it |
| FeeController.MonthlySummaryOf | controllers/feeController.js:156-175 | the summary carries the requested month and year and exactly the period's records of every status; totalAmount is the sum of all their amounts, paidCount the number of paid ones, totalCount their number |
| FeeController.MonthlyFees | controllers/feeController.js:145-180 | MonthAndYearRequired exactly when month or year is missing; otherwise the period's summary |
| FeeController.FeeLedger.GetMonthlyFees | controllers/feeController.js:145-180 | the same summary, for the stored ledger |
| FeeController.MonthlySummaryCoversPaid | controllers/feeController.js:163-164 | the summary's paidCount equals the dashboard's paid count, and its total is the paid total plus the total of the period's pending and overdue records, so at least the paid total |
| FeeController.PaidOfPeriod | controllers/feeController.js:164 | filtering a period's records by status paid gives the period's paid records |
| FeeController.SumOfSelectAtMost | controllers/feeController.js:163 | leaving out records of non-negative amount never raises the total |
| FeeController.SumAmountsByStatus | controllers/feeController.js:163 | any list's total is the paid records' total plus the other records' total |
| FeeController.PeriodOrderIsTotal | controllers/feeController.js:62 | the (year desc, month desc) order compares every pair and is transitive |
| FeeController.NewerOrderIsTotal | controllers/feeController.js:20 | the (year, month, createdAt) descending order compares every pair and is transitive |
| FeeController.StudentFees | controllers/feeController.js:58-72 | the student's own records, each exactly once, sorted latest period first |
| FeeController.FeeLedger.GetStudentFees | controllers/feeController.js:58-72 | the same, for the stored ledger |
| FeeController.StudentFeesStrict | controllers/feeController.js:60-62 | under the unique index, each record's period is strictly later than the next one's |
| FeeController.DistinctRecordsDifferInPeriod | models/Fee.js:47 | two neighbouring records of one student in the sorted list never share a period |
| FeeController.UniqueRecordOnce | models/Fee.js:47 | under the unique index, no record appears twice in the ledger |
| FeeController.Fees | controllers/feeController.js:8-30 | exactly the records matching each given filter, each once, sorted latest period first and latest created first within a period |
| FeeController.FeeLedger.GetFees | controllers/feeController.js:8-30 | the same, for the stored ledger |
| Sequences.SortBy | controllers/feeController.js:20 | sorting keeps exactly the same records |
| Sequences.SortBySorted | controllers/feeController.js:20 | under a total order, the sorted records are in order |
| StudentController.CreateStudentOutcome | controllers/studentController.js:61-71 | ValidationFailed exactly when a validator fails, DuplicateKey exactly when the phone is taken, and otherwise the student built from the request (every field the input gives, the next id, isActive defaulting to true) appended to the roster |
| StudentController.CreateStudentKeepsInvariant | models/Student.js:9-20 | creating a student keeps every record valid, the ids increasing and the phones unique |
| StudentController.ApplyPatch | controllers/studentController.js:78-85 | an update keeps the id, keeps the phone unless one is sent, keeps a valid record valid under valid fields, and an empty update changes nothing |
| StudentController.UpdateWhere | controllers/studentController.js:78-85 | only the record with that id is replaced by its update |
| StudentController.UpdateStudentOutcome | controllers/studentController.js:76-101 | ValidationFailed, StudentNotFound and DuplicateKey each hold exactly under their condition and leave the roster unchanged; success returns the updated record in place |
| StudentController.UpdateTouchesOnlyTarget | controllers/studentController.js:78-85 | an update leaves every other student, the order and the roster's length as they were |
| StudentController.UpdateStudentKeepsInvariant | controllers/studentController.js:76-101 | updating keeps every record valid, the ids increasing and the phones unique |
| StudentController.DeleteStudentOutcome | controllers/studentController.js:106-128 | succeeds exactly for a known id; otherwise StudentNotFound with the roster unchanged |
| StudentController.DeleteIsSoft | controllers/studentController.js:108-112 | the deleted student stays in the roster with isActive false and nothing else changed; deleting is the update that sends only isActive: false |
| StudentController.DeleteStudentKeepsInvariant | controllers/studentController.js:106-128 | deleting keeps the roster invariant |
| StudentController.StudentList | controllers/studentController.js:6-33 | the list holds exactly the students matching the isActive filter, where only "true" means active; without the filter it holds all of them |
| StudentController.StudentListNewestFirst | controllers/studentController.js:24 | the list is newest first: ids strictly decrease along it |
| StudentController.SelectKeepsOrder | controllers/studentController.js:11-24 | filtering keeps the creation order |
| StudentController.Roster.CreateStudent | controllers/studentController.js:61-71 | response and new roster are those of CreateStudentOutcome; the invariant is kept |
| StudentController.Roster.UpdateStudent | controllers/studentController.js:76-101 | response and new roster are those of UpdateStudentOutcome; the invariant is kept |
| StudentController.Roster.DeleteStudent | controllers/studentController.js:106-128 | response and new roster are those of DeleteStudentOutcome; the invariant is kept |
| StudentController.Roster.GetStudents | controllers/studentController.js:6-33 | the stored students matching the isActive filter |
| StudentController.Roster.GetStudent | controllers/studentController.js:38-56 | the student with that id; StudentNotFound exactly when there is none |
| WhatsAppController.ReminderPeriod | controllers/whatsappController.js:65-66 | a given month or year is used; a missing one falls back to today's |
| WhatsAppController.ReminderLinkFor | controllers/whatsappController.js:59-97 | StudentNotFound exactly for an unknown id; otherwise the reminder for the student's own monthly fee and the requested period |
| WhatsAppController.ReminderLinkForStored | controllers/whatsappController.js:68-81 | for a validated roster, a known student always gets a link, and its message carries the student's monthly fee |
| WhatsAppController.PendingRemindersFor | controllers/whatsappController.js:102-125 | the pending reminders for the requested period, or today's when none is given |
| WhatsAppController.GroupReminderFor | controllers/whatsappController.js:130-153 | the group reminder for the requested period, or today's when none is given |
| WhatsAppController.RecipientsAreLinkedStudents | controllers/whatsappController.js:38 | sentTo lists the student of every link, in link order; with valid phones that is every active student |
| WhatsAppController.AllActiveRecipients | controllers/whatsappController.js:38 | when every active student's phone gives a link, sentTo of a broadcast is exactly the active students' ids in roster order |
| WhatsAppController.RecipientsOfStudentEntries | controllers/whatsappController.js:38 | when every entry is a student link, sentTo maps each entry to its student |
| WhatsAppController.Latest | controllers/whatsappController.js:160-163 | the history is newest first and holds at most 50 entries |
| WhatsAppController.LatestAfterRecord | controllers/whatsappController.js:160-163 | the announcement just recorded heads the history, followed by the earlier ones |
| WhatsAppController.AnnouncementLog.SendAnnouncement | controllers/whatsappController.js:14-54 | a missing type or message is rejected first; a failed service call is passed on; an invalid type is rejected by the schema; success appends one record, whose sentTo is empty for a group send |
| WhatsAppController.AnnouncementLog.GetAnnouncements | controllers/whatsappController.js:158-173 | at most 50 entries, the latest first |
| CronJobs.ShouldSendReminder | utils/cronJobs.js:10-28 | a reminder day is exactly the 1st, 3rd, 5th, 7th or 9th, and it reports today's month, year and day |
| CronJobs.ReminderDaysAreEarlyOdd | utils/cronJobs.js:17-25 | no reminder after the 10th or on an even day |
| CronJobs.LogPendingFeeReminders | utils/cronJobs.js:35-64 | nothing is listed on a non-reminder day; otherwise the k-th pending reminder of the current period is listed as entry k + 1; the roster and the ledger are only read |

## Left out

- Console output is left out. The cron job's log lines become the returned `LogEntry` list, and the service's error logging is not modelled.
- Scheduling is left out: `cron.schedule`, its 10:00 time and its Asia/Kolkata timezone. The job takes today's date as a parameter.
- Unexpected failures are left out: a database error, a failed cast of an id, or an exception caught by a `try/catch`. Only the error responses the handlers produce themselves are modelled.
- Concurrency is left out. In particular, the window between `findOne` and `create` in createFee is not modelled: each handler runs atomically on the stores.
- `trim` on the string fields is not modelled. Neither are the express-validator chains in the routes, which only normalise input because the controllers never read their result.
- `populate` is not modelled; records refer to students by id.
- The `search` query of getStudents is not modelled, because the `$regex` match with the `i` option is left out.
- `parseInt` is not modelled. The query values arrive as numbers, and an absent value is `None`; a value that does not parse (NaN) is not modelled.
- The locale month name of each breakdown entry (`toLocaleString`) is not modelled.
- `createdAt` is modelled by creation order: a larger id is a later creation. The sorts on `createdAt` (getStudents, getFees, getAnnouncements) use that order.
- FeeController.MonthlySummaryOf: the `sort({paidDate: -1})` of getMonthlyFees is left out; the period's records are kept in ledger order. The totals and counts do not depend on the order.
- FeeController.StudentFees: records of the same period would be ordered by the insertion sort. The unique index rules out such ties (StudentFeesStrict), so no tie order is stated.
- WhatsAppService.StudentLinks: its own contract states only the length bound. What each entry is, is stated by StudentLinksTrace and StudentLinksComplete.
- WhatsAppService.MakeReminder and WhatsAppService.StudentEntry put `""` in the link field when the phone gives no link. The loops only call them for students whose phone gives one.
- The `activate` and `deactivate` handlers that routes/students.js imports are not part of this model. The student controller does not define them.
- Authentication (routes/auth.js), server start-up (server.js) and the route wiring are not part of this model.
- Floating-point amounts are not modelled; amounts are integers.
- Dates are not range-checked. A `Date` is day, month and year as `new Date()` reports them, and `Date.now` is an integer timestamp.
