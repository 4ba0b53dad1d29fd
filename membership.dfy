/**
 * The two denormalised halves of class membership, a student record's `classCode` and a class's
 * `students` array, and the updates joinClass applies to them.
 */
module Membership {
  import opened Wrappers
  import opened Seqs
  import opened Types

  predicate NoDuplicates<T(==)>(xs: seq<T>) {
    forall i, j :: 0 <= i < j < |xs| ==> xs[i] != xs[j]
  }

  /** No two student records share an email (studentSignup's uniqueness rule). */
  predicate UniqueEmails(students: seq<StudentRecord>) {
    forall i, j :: 0 <= i < j < |students| ==> students[i].email != students[j].email
  }

  /**
   * Every student record that names a class names one that exists, and that class (the first
   * with the code, as every reader looks it up) lists the student's email.
   */
  predicate ReferentialIntegrity(students: seq<StudentRecord>, classes: seq<ClassRecord>) {
    forall i :: 0 <= i < |students| && students[i].classCode.Some? ==>
      ClassFor(classes, students[i].classCode).Some? &&
      students[i].email in Roster(ClassFor(classes, students[i].classCode).value)
  }

  /** `students.map(s => s.id === id ? { ...s, classCode: code } : s)`. */
  function AssignClass(students: seq<StudentRecord>, id: string, code: string): (r: seq<StudentRecord>)
    ensures |r| == |students|
    ensures forall i :: 0 <= i < |r| ==> r[i].(classCode := students[i].classCode) == students[i]
    ensures forall i :: 0 <= i < |r| ==>
      r[i].classCode == if students[i].id == id then Some(code) else students[i].classCode
  {
    seq(|students|, i requires 0 <= i < |students| =>
      if students[i].id == id then students[i].(classCode := Some(code)) else students[i])
  }

  /** Append-if-absent: `roster.includes(email) ? roster : [...roster, email]`. */
  function AddIfAbsent(roster: seq<string>, email: string): (r: seq<string>)
    ensures email in r
    ensures email in roster ==> r == roster
    ensures email !in roster ==> r == roster + [email]
    ensures NoDuplicates(roster) ==> NoDuplicates(r)
  {
    if email in roster then roster else roster + [email]
  }

  /** `classes.map(c => c.code === code ? { ...c, students: roster } : c)`. */
  function SetRosters(classes: seq<ClassRecord>, code: string, roster: seq<string>): (r: seq<ClassRecord>)
    ensures |r| == |classes|
    ensures forall j :: 0 <= j < |r| ==> r[j].code == classes[j].code
    ensures forall j :: 0 <= j < |r| && classes[j].code != code ==> r[j] == classes[j]
    ensures forall j :: 0 <= j < |r| && classes[j].code == code ==> r[j] == classes[j].(students := Some(roster))
  {
    seq(|classes|, j requires 0 <= j < |classes| =>
      if classes[j].code == code then classes[j].(students := Some(roster)) else classes[j])
  }

  /** Assigning the same class twice is the same as assigning it once. */
  lemma AssignClassIdempotent(students: seq<StudentRecord>, id: string, code: string)
    ensures AssignClass(AssignClass(students, id, code), id, code) == AssignClass(students, id, code)
  {
    var once := AssignClass(students, id, code);
    var twice := AssignClass(once, id, code);
    assert forall i :: 0 <= i < |twice| ==> twice[i] == once[i];
  }

  /** Writing the same roster twice is the same as writing it once. */
  lemma SetRostersIdempotent(classes: seq<ClassRecord>, code: string, roster: seq<string>)
    ensures SetRosters(SetRosters(classes, code, roster), code, roster) == SetRosters(classes, code, roster)
  {
    var once := SetRosters(classes, code, roster);
    var twice := SetRosters(once, code, roster);
    assert forall j :: 0 <= j < |twice| ==> twice[j] == once[j];
  }

  /** Two class lists with the same codes position by position designate classes at the same position. */
  lemma SameCodesSamePosition(a: seq<ClassRecord>, b: seq<ClassRecord>, code: string)
    requires |a| == |b|
    requires forall j :: 0 <= j < |a| ==> a[j].code == b[j].code
    ensures FindFirst(a, HasCode(code)) == FindFirst(b, HasCode(code))
  {
    var ka, kb := FindFirst(a, HasCode(code)), FindFirst(b, HasCode(code));
    if ka.Some? {
      assert HasCode(code)(b[ka.value]);
    }
    if kb.Some? {
      assert HasCode(code)(a[kb.value]);
    }
  }

  /** After SetRosters, a code designates the class at the same position, with the new roster if the code matches. */
  lemma {:induction false} ClassWithCodeAfterSetRosters(classes: seq<ClassRecord>, code: string, roster: seq<string>, x: string)
    ensures ClassWithCode(SetRosters(classes, code, roster), x) ==
      match ClassWithCode(classes, x)
      case None => None
      case Some(c) => Some(if c.code == code then c.(students := Some(roster)) else c)
  {
    var r := SetRosters(classes, code, roster);
    SameCodesSamePosition(classes, r, x);
  }
}
