/**
 * The class-creation form of src/features/admin/CreateClass.tsx: a six-character code drawn
 * from a 36-character alphabet, and a new class appended to the stored class list.
 * `Math.random()` is replaced by the six alphabet indices it would have produced, and
 * `Date.now()` by the id it would have produced.
 */
module CreateClass {
  import opened Wrappers
  import opened Text
  import opened Types
  import opened Storage
  import opened Membership
  import AuthModel

  const Alphabet: string := "ABCDEFGHIJKLMNOPQRSTUVWXYZ0123456789"

  const CodeLength: nat := 6

  /** A capital letter or a digit. */
  predicate IsCodeChar(c: char) {
    'A' <= c <= 'Z' || '0' <= c <= '9'
  }

  /** Six indices into the alphabet, as `Math.floor(Math.random() * 36)` yields. */
  predicate ValidPicks(picks: seq<nat>) {
    |picks| == CodeLength && forall i :: 0 <= i < |picks| ==> picks[i] < |Alphabet|
  }

  /** Every alphabet character is a capital letter or a digit. */
  lemma AlphabetIsCodeChars()
    ensures |Alphabet| == 36
    ensures forall k :: 0 <= k < |Alphabet| ==> IsCodeChar(Alphabet[k])
  {
  }

  /** The code the loop builds, character by character, for the given picks. */
  function CodeFor(picks: seq<nat>): (r: string)
    requires ValidPicks(picks)
    ensures |r| == CodeLength
    ensures forall i :: 0 <= i < |r| ==> IsCodeChar(r[i])
  {
    AlphabetIsCodeChars();
    seq(CodeLength, i requires 0 <= i < CodeLength => Alphabet[picks[i]])
  }

  /** `generateClassCode`: six appends of `chars.charAt(pick)` to an initially empty code. */
  method GenerateClassCode(picks: seq<nat>) returns (code: string)
    requires ValidPicks(picks)
    ensures |code| == CodeLength
    ensures forall i :: 0 <= i < CodeLength ==> code[i] == Alphabet[picks[i]]
    ensures code == CodeFor(picks)
  {
    code := "";
    for i := 0 to CodeLength
      invariant |code| == i
      invariant forall j :: 0 <= j < i ==> code[j] == Alphabet[picks[j]]
    {
      code := code + [Alphabet[picks[i]]];
    }
  }

  /** A generated code is already normalised, so joinClass looks it up unchanged and its length passes. */
  lemma {:induction false} GeneratedCodeIsNormal(picks: seq<nat>)
    requires ValidPicks(picks)
    ensures AuthModel.NormalizeCode(CodeFor(picks)) == CodeFor(picks)
    ensures |AuthModel.NormalizeCode(CodeFor(picks))| == CodeLength
  {
    var code := CodeFor(picks);
    assert !IsWhitespace(code[0]) && !IsWhitespace(code[|code| - 1]);
    TrimmedIsFixed(code);
    assert ToUpper(code) == code;
  }

  /** The record the form stores: the form's name, the code, and four empty arrays. */
  function NewClass(id: string, name: string, code: string): (r: ClassRecord)
    ensures r.id == id && r.name == name && r.code == code
    ensures Roster(r) == [] && r.messages == [] && r.subjects == Some([]) && r.events == Some([])
  {
    ClassRecord(id, name, code, Some([]), [], Some([]), Some([]))
  }

  /** The form's class name; the form starts with the key present, and no edit removes it. */
  function ClassName(formData: map<string, string>): string {
    if "className" in formData then formData["className"] else ""
  }

  /**
   * Appending a class never changes what an existing code designates: if the generated code
   * collides with a stored one, joinClass keeps finding the older class.
   */
  lemma CollidingCodeIsShadowed(classes: seq<ClassRecord>, id: string, name: string, code: string)
    requires ClassWithCode(classes, code).Some?
    ensures ClassWithCode(classes + [NewClass(id, name, code)], code) == ClassWithCode(classes, code)
  {
    ClassWithCodeAppend(classes, [NewClass(id, name, code)], code);
  }

  /** A fresh code designates the new class. */
  lemma {:induction false} FreshCodeFindsNewClass(classes: seq<ClassRecord>, id: string, name: string, code: string)
    requires ClassWithCode(classes, code).None?
    ensures ClassWithCode(classes + [NewClass(id, name, code)], code) == Some(NewClass(id, name, code))
  {
    var all := classes + [NewClass(id, name, code)];
    assert all[|classes|].code == code;
    assert forall j :: 0 <= j < |classes| ==> all[j].code != code;
  }

  /** Appending a class keeps every student record's class pointing at a class that lists it. */
  lemma {:induction false} AppendKeepsIntegrity(students: seq<StudentRecord>, classes: seq<ClassRecord>, c: ClassRecord)
    requires ReferentialIntegrity(students, classes)
    ensures ReferentialIntegrity(students, classes + [c])
  {
    forall i | 0 <= i < |students| && students[i].classCode.Some?
      ensures ClassFor(classes + [c], students[i].classCode) == ClassFor(classes, students[i].classCode)
    {
      ClassWithCodeAppend(classes, [c], students[i].classCode.value);
    }
  }

  /** The component's state: the form fields, the submitting flag, the code on display and the error text. */
  class CreateClassForm {
    var formData: map<string, string>
    var isSubmitting: bool
    var generatedCode: string
    var error: string

    constructor ()
      ensures formData == map["className" := ""] && !isSubmitting && generatedCode == "" && error == ""
    {
      formData := map["className" := ""];
      isSubmitting := false;
      generatedCode := "";
      error := "";
    }

    /**
     * Submit: generate a code, append exactly one class at the end of the stored list, and show
     * the code that was stored. The code is not checked against the stored ones.
     */
    method HandleSubmit(store: Store, picks: seq<nat>, id: string)
      requires ValidPicks(picks)
      modifies this, store
      ensures store.classes == old(store.classes) + [NewClass(id, ClassName(formData), generatedCode)]
      ensures generatedCode == CodeFor(picks) && store.classes[|store.classes| - 1].code == generatedCode
      ensures store.Value() == old(store.Value()).(classes := store.classes)
      ensures formData == old(formData) && !isSubmitting && error == ""
    {
      error := "";
      isSubmitting := true;
      var classCode := GenerateClassCode(picks);
      var existingClasses := store.classes;
      var newClass := NewClass(id, ClassName(formData), classCode);
      existingClasses := existingClasses + [newClass];
      store.classes := existingClasses;
      generatedCode := classCode;
      isSubmitting := false;
    }

    /** `setFormData(prev => ({ ...prev, [name]: value }))`, then clear the error. */
    method HandleInputChange(name: string, value: string)
      modifies this
      ensures formData == old(formData)[name := value]
      ensures error == ""
      ensures isSubmitting == old(isSubmitting) && generatedCode == old(generatedCode)
    {
      formData := formData[name := value];
      error := "";
    }
  }
}
