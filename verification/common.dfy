/** Shared vocabulary: optional values, tagged results, the error conditions
    the handlers report, and the number-to-text conversion that the message
    templates use when they interpolate an amount or a year. */
module Common {

  datatype Option<T> = None | Some(value: T)

  /** The `{success, data | error}` envelope of every handler and service call. */
  datatype Result<T> = Ok(value: T) | Err(error: Error)

  /** The error conditions of the handlers and the service, one per distinct
      message or status the source produces. */
  datatype Error =
    | StudentNotFound          // 'Student not found' (404 in the controllers)
    | FeeNotFound              // 'Fee record not found'
    | InvalidPhoneNumber       // 'Invalid phone number' (link generation failed)
    | NoActiveStudents         // 'No active students found'
    | NoOverdueStudents        // 'No overdue students found'
    | TypeAndMessageRequired   // 'Type and message are required'
    | MonthAndYearRequired     // 'Month and year are required'
    | FeeAlreadyPaid           // 'Fee already paid for this month'
    | ValidationFailed         // a schema validator rejected the document
    | DuplicateKey             // a unique index rejected the document

  type StudentId = nat
  type FeeId = nat

  predicate IsDigit(c: char) { '0' <= c <= '9' }

  predicate AllDigits(s: string) { forall i :: 0 <= i < |s| ==> IsDigit(s[i]) }

  /** `t` occurs in `s` as a contiguous piece. */
  ghost predicate Contains(s: string, t: string) {
    exists i :: OccursAt(s, t, i)
  }

  /** `t` occurs in `s` starting at index `i`. */
  predicate OccursAt(s: string, t: string, i: int) {
    0 <= i <= |s| - |t| && s[i..i + |t|] == t
  }

  lemma ContainsMiddle(a: string, b: string, c: string)
    ensures Contains(a + b + c, b)
  {
    var s := a + b + c;
    assert OccursAt(s, b, |a|);
  }

  function DigitChar(d: nat): (c: char)
    requires d < 10
    ensures IsDigit(c) && c as int - '0' as int == d
  {
    (('0' as int) + d) as char
  }

  /** JavaScript's decimal rendering of a non-negative integer. */
  function NatToString(n: nat): (s: string)
    ensures |s| >= 1 && AllDigits(s)
    ensures |s| > 1 ==> s[0] != '0'
    decreases n
  {
    if n < 10 then [DigitChar(n)] else NatToString(n / 10) + [DigitChar(n % 10)]
  }

  /** JavaScript's decimal rendering of an integer (a leading '-' when negative). */
  function IntToString(i: int): (s: string)
    ensures |s| >= 1
    ensures i >= 0 <==> AllDigits(s)
  {
    if i < 0 then
      var s := "-" + NatToString(-i);
      assert !IsDigit(s[0]);
      s
    else NatToString(i)
  }

  /** Reads a string of decimal digits back as a number. */
  function ParseDigits(s: string): nat
    requires AllDigits(s)
  {
    if s == [] then 0
    else 10 * ParseDigits(s[..|s| - 1]) + (s[|s| - 1] as int - '0' as int)
  }

  /** The decimal rendering loses nothing: it reads back as the same number. */
  lemma {:induction false} NatToStringRoundTrip(n: nat)
    ensures ParseDigits(NatToString(n)) == n
  {
    if n >= 10 {
      var s := NatToString(n);
      assert s[..|s| - 1] == NatToString(n / 10);
      NatToStringRoundTrip(n / 10);
    }
  }
}
