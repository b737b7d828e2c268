/** The fixed message templates of the WhatsApp service: fee reminder,
    payment confirmation, announcement and the group reminder that lists
    every overdue student. */
module Messages {
  import opened Common
  import opened Periods

  const MonthNames: seq<string> := ["January", "February", "March", "April", "May", "June",
    "July", "August", "September", "October", "November", "December"]

  /** `monthNames[month - 1]` interpolated into a template: a month outside
      1..12 reads as the text "undefined". */
  function MonthName(month: int): string {
    if 1 <= month <= 12 then MonthNames[month - 1] else "undefined"
  }

  /** The "<Month> <year>" piece of every template. */
  function PeriodText(month: int, year: int): string {
    MonthName(month) + " " + IntToString(year)
  }

  /** The "PKR<amount>" piece of every template. */
  function AmountText(amount: int): string {
    "PKR" + IntToString(amount)
  }

  predicate StartsWith(s: string, p: string) {
    |p| <= |s| && s[..|p|] == p
  }

  lemma ContainsAt5(p0: string, x: string, p1: string, y: string, p2: string, z: string, p3: string)
    ensures var s := p0 + x + p1 + y + p2 + z + p3;
      Contains(s, x) && Contains(s, y) && Contains(s, z)
  {
    var s := p0 + x + p1 + y + p2 + z + p3;
    assert s == p0 + x + (p1 + y + p2 + z + p3);
    ContainsMiddle(p0, x, p1 + y + p2 + z + p3);
    assert s == (p0 + x + p1) + y + (p2 + z + p3);
    ContainsMiddle(p0 + x + p1, y, p2 + z + p3);
    assert s == (p0 + x + p1 + y + p2) + z + p3;
    ContainsMiddle(p0 + x + p1 + y + p2, z, p3);
  }

  /** generateFeeReminderMessage: names the student, the amount and the period. */
  function FeeReminderMessage(studentName: string, month: int, year: int, amount: int): (r: string)
    ensures Contains(r, studentName)
    ensures Contains(r, AmountText(amount))
    ensures Contains(r, PeriodText(month, year))
  {
    var p0 := "Assalamu Alaikum ";
    var p1 := ",\n\nThis is a reminder that your Madarsa fee for ";
    var p2 := " is pending.\nAmount: ";
    var p3 := "\nPlease make the payment at your earliest convenience.\n\nJazakAllah Khair";
    ContainsAt5(p0, studentName, p1, PeriodText(month, year), p2, AmountText(amount), p3);
    p0 + studentName + p1 + PeriodText(month, year) + p2 + AmountText(amount) + p3
  }

  /** generatePaymentConfirmationMessage: names the student, the amount and the period. */
  function PaymentConfirmationMessage(studentName: string, amount: int, month: int, year: int): (r: string)
    ensures Contains(r, studentName)
    ensures Contains(r, AmountText(amount))
    ensures Contains(r, PeriodText(month, year))
  {
    var p0 := "Assalamu Alaikum ";
    var p1 := ",\n\nYour Madarsa fee payment has been confirmed.\nAmount: ";
    var p2 := "\nMonth: ";
    var p3 := "\nThank you for your payment.\n\nJazakAllah Khair";
    ContainsAt5(p0, studentName, p1, AmountText(amount), p2, PeriodText(month, year), p3);
    p0 + studentName + p1 + AmountText(amount) + p2 + PeriodText(month, year) + p3
  }

  const HolidayHeader := "*Holiday Announcement*"
  const TimingChangeHeader := "*Timing Change Announcement*"
  const GeneralHeader := "*Announcement*"

  /** generateAnnouncementMessage: the header chosen by the type, a blank
      line, then the message as given; any type other than `holiday` and
      `timing_change` gets the general header. */
  function AnnouncementMessage(announcementType: string, message: string): (r: string)
    ensures |r| >= |message| && r[|r| - |message|..] == message
    ensures StartsWith(r, HolidayHeader) <==> announcementType == "holiday"
    ensures StartsWith(r, TimingChangeHeader) <==> announcementType == "timing_change"
    ensures StartsWith(r, GeneralHeader) <==> announcementType != "holiday" && announcementType != "timing_change"
  {
    var header :=
      if announcementType == "holiday" then HolidayHeader
      else if announcementType == "timing_change" then TimingChangeHeader
      else GeneralHeader;
    var r := header + "\n\n" + message;
    assert r[..|header|] == header;
    assert r[|r| - |message|..] == message;
    assert r[1] == header[1];
    r
  }

  /** One entry of `getPendingFeeReminders`' result: a student who has not
      paid for the period and is overdue, with the link to remind them. */
  datatype Reminder = Reminder(
    studentId: StudentId,
    studentName: string,
    phone: string,
    amount: int,
    feeDueDate: int,
    overdue: bool,
    link: string)

  function GroupHeader(month: int, year: int): string {
    "*Fee Reminder - " + PeriodText(month, year) + "*\n\n" +
    "Assalamu Alaikum,\n\n" +
    "This is a reminder for the following students with pending fees:\n\n"
  }

  /** The lines for the `number`-th overdue student. */
  function GroupEntry(number: int, r: Reminder): string {
    IntToString(number) + ". " + r.studentName + "\n" +
    "   Amount: " + AmountText(r.amount) + "\n" +
    "   Due Date: " + IntToString(DueDayOr10(r.feeDueDate)) + "th\n\n"
  }

  /** The numbered entries, one per reminder in the order given. */
  function EntryTexts(rs: seq<Reminder>): (es: seq<string>)
    ensures |es| == |rs|
    ensures forall i :: 0 <= i < |rs| ==> es[i] == GroupEntry(i + 1, rs[i])
  {
    seq(|rs|, i requires 0 <= i < |rs| => GroupEntry(i + 1, rs[i]))
  }

  function Concat(ss: seq<string>): string {
    if ss == [] then "" else Concat(ss[..|ss| - 1]) + ss[|ss| - 1]
  }

  const GroupFooter := "Please make the payment at your earliest convenience.\n\nJazakAllah Khair"

  function GroupReminderText(rs: seq<Reminder>, month: int, year: int): string {
    GroupHeader(month, year) + Concat(EntryTexts(rs)) + GroupFooter
  }

  /** generateGroupReminderMessage: the header, then `message +=` one entry
      per reminder, then the closing lines. */
  method GenerateGroupReminderMessage(rs: seq<Reminder>, month: int, year: int) returns (message: string)
    ensures message == GroupReminderText(rs, month, year)
  {
    var header := GroupHeader(month, year);
    ghost var es := EntryTexts(rs);
    message := header;
    var i := 0;
    assert es[..0] == [];
    while i < |rs|
      invariant 0 <= i <= |rs|
      invariant message == header + Concat(es[..i])
    {
      var entry := GroupEntry(i + 1, rs[i]);
      AppendEntry(header, message, es, i);
      message := message + entry;
      i := i + 1;
    }
    GroupTextOfEntries(rs, month, year, message);
    message := message + GroupFooter;
  }

  /** One `+=` of the loop: appending entry i extends the text by one entry. */
  lemma AppendEntry(header: string, message: string, es: seq<string>, i: nat)
    requires i < |es| && message == header + Concat(es[..i])
    ensures message + es[i] == header + Concat(es[..i + 1])
  {
    ConcatSnoc(es, i);
  }

  /** Once every entry is appended, the footer completes the group reminder. */
  lemma GroupTextOfEntries(rs: seq<Reminder>, month: int, year: int, message: string)
    requires message == GroupHeader(month, year) + Concat(EntryTexts(rs)[..|rs|])
    ensures message + GroupFooter == GroupReminderText(rs, month, year)
  {
    assert EntryTexts(rs)[..|rs|] == EntryTexts(rs);
  }

  lemma ConcatSnoc(ss: seq<string>, i: nat)
    requires i < |ss|
    ensures Concat(ss[..i + 1]) == Concat(ss[..i]) + ss[i]
  {
    assert ss[..i + 1][..i] == ss[..i];
  }

  lemma {:induction false} ConcatPrefix(ss: seq<string>, j: nat)
    requires j <= |ss|
    ensures |Concat(ss[..j])| <= |Concat(ss)|
    ensures Concat(ss)[..|Concat(ss[..j])|] == Concat(ss[..j])
    decreases |ss|
  {
    if j == |ss| {
      assert ss[..j] == ss;
    } else {
      var front := ss[..|ss| - 1];
      assert front[..j] == ss[..j];
      ConcatPrefix(front, j);
    }
  }

  /** If `all` begins with `pre + e`, then `e` sits right after `h + pre` in `h + all + f`. */
  lemma OccursAfterPrefix(h: string, all: string, f: string, pre: string, e: string)
    requires |pre| + |e| <= |all| && all[..|pre| + |e|] == pre + e
    ensures OccursAt(h + all + f, e, |h| + |pre|)
  {
    var s := h + all + f;
    assert s[|h| + |pre|..|h| + |pre| + |e|] == all[|pre|..|pre| + |e|];
    assert all[|pre|..|pre| + |e|] == (pre + e)[|pre|..];
  }

  /** The `k`-th reminder (0-based) appears as entry number k + 1, right
      after the header and the entries of the reminders before it. */
  lemma GroupEntriesNumbered(rs: seq<Reminder>, month: int, year: int, k: nat)
    requires k < |rs|
    ensures OccursAt(GroupReminderText(rs, month, year), EntryTexts(rs)[k],
      |GroupHeader(month, year)| + |Concat(EntryTexts(rs)[..k])|)
  {
    ConcatOccurs(GroupHeader(month, year), EntryTexts(rs), GroupFooter, k);
  }

  lemma ConcatOccurs(h: string, ss: seq<string>, f: string, k: nat)
    requires k < |ss|
    ensures OccursAt(h + Concat(ss) + f, ss[k], |h| + |Concat(ss[..k])|)
  {
    ConcatSnoc(ss, k);
    ConcatPrefix(ss, k + 1);
    OccursAfterPrefix(h, Concat(ss), f, Concat(ss[..k]), ss[k]);
  }
}
