/** The roster: creating, updating, soft-deleting and listing students.
    Records sit in creation order with increasing ids, so "newest first" is
    the reverse of the roster. */
module StudentController {
  import opened Common
  import opened StudentModel
  import opened Sequences

  /** The roster invariant: every record passed the schema validators, ids
      increase in creation order below `nextId`, and the unique index keeps
      phones distinct. */
  predicate RosterInvariant(students: seq<Student>, nextId: StudentId) {
    (forall i :: 0 <= i < |students| ==> ValidStudent(students[i]) && students[i].id < nextId) &&
    IdsIncreasing(students) &&
    (forall i, j :: 0 <= i < j < |students| ==> students[i].phone != students[j].phone)
  }

  /** Creation order: a later record has a larger id. */
  predicate IdsIncreasing(students: seq<Student>) {
    forall i, j :: 0 <= i < j < |students| ==> students[i].id < students[j].id
  }

  /** Some student other than `except` already has the phone. */
  predicate PhoneTakenByOther(students: seq<Student>, phone: string, except: Option<StudentId>) {
    exists i :: 0 <= i < |students| && students[i].phone == phone && Some(students[i].id) != except
  }

  /** createStudent: the schema validators, then the unique phone index, then
      the new record at the end of the roster. */
  function CreateStudentOutcome(students: seq<Student>, nextId: StudentId, input: StudentInput): (out: (Result<Student>, seq<Student>))
    ensures out.0.Err? ==> out.1 == students
    ensures out.0 == Err(ValidationFailed) <==> !ValidStudentInput(input)
    ensures out.0 == Err(DuplicateKey) <==> (ValidStudentInput(input) && PhoneTakenByOther(students, input.phone, None))
    ensures out.0.Ok? ==>
      out.1 == students + [out.0.value] && out.0.value.id == nextId &&
      ValidStudent(out.0.value) && out.0.value.phone == input.phone &&
      (out.0.value.isActive <==> input.isActive != Some(false))
    ensures out.0.Ok? ==> ValidStudentInput(input) && out.0.value == NewStudent(nextId, input)
  {
    if !ValidStudentInput(input) then (Err(ValidationFailed), students)
    else if PhoneTakenByOther(students, input.phone, None) then (Err(DuplicateKey), students)
    else
      var s := NewStudent(nextId, input);
      (Ok(s), students + [s])
  }

  /** createStudent keeps the roster invariant. */
  lemma CreateStudentKeepsInvariant(students: seq<Student>, nextId: StudentId, input: StudentInput)
    requires RosterInvariant(students, nextId)
    ensures var out := CreateStudentOutcome(students, nextId, input);
      RosterInvariant(out.1, if out.0.Ok? then nextId + 1 else nextId)
  {
    var out := CreateStudentOutcome(students, nextId, input);
    if out.0.Ok? {
      var t := out.1;
      forall i, j | 0 <= i < j < |t| ensures t[i].phone != t[j].phone {
        if j == |students| {
          assert t[i] == students[i];
        }
      }
    }
  }

  /** The body of an update request: only the fields the client sent. */
  datatype StudentPatch = StudentPatch(
    fullName: Option<string>,
    phone: Option<string>,
    flatName: Option<string>,
    flatNo: Option<string>,
    monthlyFee: Option<int>,
    feeDueDate: Option<int>,
    isActive: Option<bool>)

  /** `runValidators`: each field present in the update passes its validator. */
  predicate ValidPatch(p: StudentPatch) {
    (p.fullName.None? || RequiredString(p.fullName.value)) &&
    (p.phone.None? || ValidPhone(p.phone.value)) &&
    (p.flatName.None? || RequiredString(p.flatName.value)) &&
    (p.flatNo.None? || RequiredString(p.flatNo.value)) &&
    (p.monthlyFee.None? || ValidMonthlyFee(p.monthlyFee.value)) &&
    (p.feeDueDate.None? || ValidFeeDueDate(p.feeDueDate.value))
  }

  function Override<T>(old_: T, update: Option<T>): T {
    match update case None => old_ case Some(v) => v
  }

  /** The document after the update: the fields sent replace the stored ones. */
  function ApplyPatch(s: Student, p: StudentPatch): (r: Student)
    ensures r.id == s.id
    ensures p.phone.None? ==> r.phone == s.phone
    ensures ValidStudent(s) && ValidPatch(p) ==> ValidStudent(r)
    ensures p == StudentPatch(None, None, None, None, None, None, None) ==> r == s
  {
    Student(s.id, Override(s.fullName, p.fullName), Override(s.phone, p.phone),
      Override(s.flatName, p.flatName), Override(s.flatNo, p.flatNo),
      Override(s.monthlyFee, p.monthlyFee), Override(s.feeDueDate, p.feeDueDate),
      Override(s.isActive, p.isActive))
  }

  /** The roster with the record of that id replaced by `f` of itself. */
  function UpdateWhere(students: seq<Student>, id: StudentId, p: StudentPatch): (t: seq<Student>)
    ensures |t| == |students|
    ensures forall i :: 0 <= i < |students| ==>
      t[i] == if students[i].id == id then ApplyPatch(students[i], p) else students[i]
  {
    seq(|students|, i requires 0 <= i < |students| =>
      if students[i].id == id then ApplyPatch(students[i], p) else students[i])
  }

  /** updateStudent (`findByIdAndUpdate` with `new` and `runValidators`):
      the validators on the fields sent, then the lookup, then the unique
      phone index against the other students. */
  function UpdateStudentOutcome(students: seq<Student>, id: StudentId, p: StudentPatch): (out: (Result<Student>, seq<Student>))
    ensures out.0.Err? ==> out.1 == students
    ensures out.0 == Err(ValidationFailed) <==> !ValidPatch(p)
    ensures out.0 == Err(StudentNotFound) <==> (ValidPatch(p) && FindStudent(students, id).None?)
    ensures out.0 == Err(DuplicateKey) <==>
      (ValidPatch(p) && FindStudent(students, id).Some? && p.phone.Some? &&
       PhoneTakenByOther(students, p.phone.value, Some(id)))
    ensures out.0.Ok? ==>
      FindStudent(students, id).Some? &&
      out.0.value == ApplyPatch(FindStudent(students, id).value, p) &&
      out.1 == UpdateWhere(students, id, p)
  {
    if !ValidPatch(p) then (Err(ValidationFailed), students)
    else match FindStudent(students, id)
      case None => (Err(StudentNotFound), students)
      case Some(s) =>
        if p.phone.Some? && PhoneTakenByOther(students, p.phone.value, Some(id)) then (Err(DuplicateKey), students)
        else (Ok(ApplyPatch(s, p)), UpdateWhere(students, id, p))
  }

  /** updateStudent changes only the record with the given id: every other
      record, the order and the length stay as they were. */
  lemma UpdateTouchesOnlyTarget(students: seq<Student>, id: StudentId, p: StudentPatch)
    ensures var out := UpdateStudentOutcome(students, id, p);
      |out.1| == |students| &&
      forall i :: 0 <= i < |students| && students[i].id != id ==> out.1[i] == students[i]
  {
  }

  /** updateStudent keeps the roster invariant. */
  lemma UpdateStudentKeepsInvariant(students: seq<Student>, nextId: StudentId, id: StudentId, p: StudentPatch)
    requires RosterInvariant(students, nextId)
    ensures RosterInvariant(UpdateStudentOutcome(students, id, p).1, nextId)
  {
    var out := UpdateStudentOutcome(students, id, p);
    if out.0.Ok? {
      var t := out.1;
      forall i, j | 0 <= i < j < |t| ensures t[i].phone != t[j].phone {
        assert t[i] == if students[i].id == id then ApplyPatch(students[i], p) else students[i];
        assert t[j] == if students[j].id == id then ApplyPatch(students[j], p) else students[j];
      }
    }
  }

  /** deleteStudent: a soft delete that clears `isActive` on the record. */
  function DeleteStudentOutcome(students: seq<Student>, id: StudentId): (out: (Result<()>, seq<Student>))
    ensures out.0.Err? ==> out.0 == Err(StudentNotFound) && out.1 == students
    ensures out.0.Ok? <==> FindStudent(students, id).Some?
  {
    match FindStudent(students, id)
    case None => (Err(StudentNotFound), students)
    case Some(_) => (Ok(()), UpdateWhere(students, id, DeactivatePatch))
  }

  const DeactivatePatch := StudentPatch(None, None, None, None, None, None, Some(false))

  /** Deleting keeps the record in the roster: the student with that id is
      still there, now inactive, with every other field unchanged, and the
      rest of the roster is untouched; it is the update that sends only
      `isActive: false`. */
  lemma DeleteIsSoft(students: seq<Student>, id: StudentId)
    ensures var out := DeleteStudentOutcome(students, id);
      |out.1| == |students| &&
      (forall i :: 0 <= i < |students| ==>
        out.1[i] == if students[i].id == id then students[i].(isActive := false) else students[i]) &&
      (out.0.Ok? ==> UpdateStudentOutcome(students, id, DeactivatePatch).1 == out.1)
  {
  }

  /** deleteStudent keeps the roster invariant. */
  lemma DeleteStudentKeepsInvariant(students: seq<Student>, nextId: StudentId, id: StudentId)
    requires RosterInvariant(students, nextId)
    ensures RosterInvariant(DeleteStudentOutcome(students, id).1, nextId)
  {
    UpdateStudentKeepsInvariant(students, nextId, id, DeactivatePatch);
  }

  /** The `isActive` query value as the handler reads it: only the text
      "true" means active, anything else (such as "yes" or "1") inactive. */
  function ActiveFilter(isActive: string): Student -> bool {
    (s: Student) => s.isActive == (isActive == "true")
  }

  /** getStudents: the roster, filtered on `isActive` when the query has it,
      newest first. */
  function StudentList(students: seq<Student>, isActive: Option<string>): (r: seq<Student>)
    ensures forall s :: s in r <==> s in students && (isActive.None? || s.isActive == (isActive.value == "true"))
    ensures isActive.None? ==> |r| == |students|
  {
    var matching := if isActive.None? then students else Select(students, ActiveFilter(isActive.value));
    var r := Reversed(matching);
    assert forall s :: s in r <==> s in matching by {
      forall s | s in matching ensures s in r {
        var k :| 0 <= k < |matching| && matching[k] == s;
        assert r[|matching| - 1 - k] == s;
      }
    }
    r
  }

  /** Under the roster invariant the list is newest first: ids strictly
      decrease along it. */
  lemma {:induction false} StudentListNewestFirst(students: seq<Student>, nextId: StudentId, isActive: Option<string>)
    requires RosterInvariant(students, nextId)
    ensures var r := StudentList(students, isActive);
      forall i, j :: 0 <= i < j < |r| ==> r[i].id > r[j].id
  {
    var matching := if isActive.None? then students else Select(students, ActiveFilter(isActive.value));
    assert IdsIncreasing(matching) by {
      if isActive.Some? {
        SelectKeepsOrder(students, ActiveFilter(isActive.value));
      }
    }
    assert StudentList(students, isActive) == Reversed(matching);
    ReversedIdsDecrease(matching);
  }

  lemma ReversedIdsDecrease(m: seq<Student>)
    requires IdsIncreasing(m)
    ensures forall i, j :: 0 <= i < j < |Reversed(m)| ==> Reversed(m)[i].id > Reversed(m)[j].id
  {
    var r := Reversed(m);
    forall i, j | 0 <= i < j < |r| ensures r[i].id > r[j].id {
      assert r[i] == m[|m| - 1 - i] && r[j] == m[|m| - 1 - j];
    }
  }

  /** Filtering keeps the increasing id order of the roster. */
  lemma {:induction false} SelectKeepsOrder(students: seq<Student>, keep: Student -> bool)
    requires IdsIncreasing(students)
    ensures IdsIncreasing(Select(students, keep))
  {
    if students != [] {
      var n := |students| - 1;
      var front := students[..n];
      SelectKeepsOrder(front, keep);
      var m := Select(front, keep);
      if keep(students[n]) {
        var t := m + [students[n]];
        forall i | 0 <= i < |m| ensures m[i].id < students[n].id {
          assert m[i] in front;
          var k :| 0 <= k < n && front[k] == m[i];
          assert students[k] == m[i];
          assert students[k].id < students[n].id;
        }
        assert IdsIncreasing(t) by {
          forall i, j | 0 <= i < j < |t| ensures t[i].id < t[j].id {
            if j < |m| {
              assert t[i] == m[i] && t[j] == m[j];
              assert m[i].id < m[j].id;
            } else {
              assert t[i] == m[i] && t[j] == students[n];
              assert m[i].id < students[n].id;
            }
          }
        }
        assert Select(students, keep) == t;
      } else {
        assert Select(students, keep) == m;
      }
    }
  }

  /** The student roster, in creation order. */
  class Roster {
    var students: seq<Student>
    var nextId: StudentId

    predicate Valid()
      reads this
    {
      RosterInvariant(students, nextId)
    }

    constructor ()
      ensures Valid() && students == [] && nextId == 0
    {
      students := [];
      nextId := 0;
    }

    /** createStudent. */
    method CreateStudent(input: StudentInput) returns (r: Result<Student>)
      requires Valid()
      modifies this
      ensures Valid()
      ensures (r, students) == CreateStudentOutcome(old(students), old(nextId), input)
      ensures nextId == if r.Ok? then old(nextId) + 1 else old(nextId)
    {
      CreateStudentKeepsInvariant(students, nextId, input);
      if !ValidStudentInput(input) {
        return Err(ValidationFailed);
      }
      if PhoneTakenByOther(students, input.phone, None) {
        return Err(DuplicateKey);
      }
      var student := NewStudent(nextId, input);
      students := students + [student];
      nextId := nextId + 1;
      r := Ok(student);
    }

    /** updateStudent. */
    method UpdateStudent(id: StudentId, p: StudentPatch) returns (r: Result<Student>)
      requires Valid()
      modifies this
      ensures Valid() && nextId == old(nextId)
      ensures (r, students) == UpdateStudentOutcome(old(students), id, p)
    {
      UpdateStudentKeepsInvariant(students, nextId, id, p);
      var out := UpdateStudentOutcome(students, id, p);
      r := out.0;
      students := out.1;
    }

    /** deleteStudent. */
    method DeleteStudent(id: StudentId) returns (r: Result<()>)
      requires Valid()
      modifies this
      ensures Valid() && nextId == old(nextId)
      ensures (r, students) == DeleteStudentOutcome(old(students), id)
    {
      DeleteStudentKeepsInvariant(students, nextId, id);
      var out := DeleteStudentOutcome(students, id);
      r := out.0;
      students := out.1;
    }

    /** getStudents. */
    function GetStudents(isActive: Option<string>): (r: seq<Student>)
      reads this
      ensures forall s :: s in r <==> s in students && (isActive.None? || s.isActive == (isActive.value == "true"))
    {
      StudentList(students, isActive)
    }

    /** getStudent. */
    function GetStudent(id: StudentId): (r: Result<Student>)
      reads this
      ensures r.Ok? ==> r.value in students && r.value.id == id
      ensures r == Err(StudentNotFound) <==> forall i :: 0 <= i < |students| ==> students[i].id != id
    {
      match FindStudent(students, id)
      case None => Err(StudentNotFound)
      case Some(s) => Ok(s)
    }
  }
}
