/**
 * The material form of src/features/admin/AddMaterial.tsx: the validation chain, the material
 * record built from the form, the subject the form points at, and the form state the handlers
 * step through. `Date.now()` and the upload date are parameters; the `onMaterialAdded` callback
 * is modelled by returning the material with its subject id.
 */
module AddMaterial {
  import opened Wrappers
  import opened Seqs
  import opened Text
  import opened Types

  datatype MaterialForm = MaterialForm(subjectId: string, title: string, kind: MaterialType, url: string, description: string)

  const InitialForm: MaterialForm := MaterialForm("", "", Pdf, "", "")

  const RequiredFieldsError: string := "Please fill in all required fields"
  const YoutubeUrlError: string := "Please enter a valid YouTube URL"
  const PdfUrlError: string := "Please enter a valid PDF URL"

  /** `url.includes('youtube.com') || url.includes('youtu.be')`. */
  predicate IsYoutubeUrl(url: string)
    ensures IsYoutubeUrl(url) <==>
      (exists k :: OccursAt(url, "youtube.com", k)) || (exists k :: OccursAt(url, "youtu.be", k))
  {
    Contains(url, "youtube.com") || Contains(url, "youtu.be")
  }

  /** `url.endsWith('.pdf')`, case-sensitive. */
  predicate IsPdfUrl(url: string)
    ensures IsPdfUrl(url) <==>
      |url| >= 4 && url[|url| - 4] == '.' && url[|url| - 3] == 'p' && url[|url| - 2] == 'd' && url[|url| - 1] == 'f'
  {
    EndsWith(url, ".pdf")
  }

  /**
   * The first failing check, in source order: the required fields (subject, title, url; the
   * description is optional), then the URL check of the chosen type.
   */
  function Validate(f: MaterialForm): (r: Option<string>)
    ensures r == Some(RequiredFieldsError) <==> f.subjectId == "" || f.title == "" || f.url == ""
    ensures r == Some(YoutubeUrlError) <==>
      f.subjectId != "" && f.title != "" && f.url != "" && f.kind == Youtube && !IsYoutubeUrl(f.url)
    ensures r == Some(PdfUrlError) <==>
      f.subjectId != "" && f.title != "" && f.url != "" && f.kind == Pdf && !IsPdfUrl(f.url)
    ensures r.None? ==> f.subjectId != "" && f.title != "" && f.url != ""
    ensures r.None? ==> (f.kind == Youtube ==> IsYoutubeUrl(f.url)) && (f.kind == Pdf ==> IsPdfUrl(f.url))
  {
    if f.subjectId == "" || f.title == "" || f.url == "" then Some(RequiredFieldsError)
    else if f.kind == Youtube && !IsYoutubeUrl(f.url) then Some(YoutubeUrlError)
    else if f.kind == Pdf && !IsPdfUrl(f.url) then Some(PdfUrlError)
    else None
  }

  /** An accepted YouTube material: the two host spellings both pass, whatever else the url holds. */
  lemma YoutubeHostsAccepted(prefix: string, suffix: string)
    ensures Validate(MaterialForm("s", "t", Youtube, prefix + "youtu.be" + suffix, "")).None?
  {
    ContainsInfix(prefix, "youtu.be", suffix);
  }

  /** `sub` occurs in any string that has it in the middle. */
  lemma {:induction false} ContainsInfix(prefix: string, sub: string, suffix: string)
    ensures Contains(prefix + sub + suffix, sub)
  {
    if |prefix| == 0 {
      assert prefix + sub + suffix == sub + suffix;
      assert (sub + suffix)[..|sub|] == sub;
    } else {
      assert (prefix + sub + suffix)[1..] == prefix[1..] + sub + suffix;
      ContainsInfix(prefix[1..], sub, suffix);
    }
  }

  /** A `.PDF` suffix is rejected: the check is case-sensitive. */
  lemma UpperCasePdfRejected()
    ensures Validate(MaterialForm("s", "t", Pdf, "notes.PDF", "")) == Some(PdfUrlError)
  {
    assert "notes.PDF"[5..] == ".PDF";
  }

  /** The material a valid form creates; the description is copied even when empty. */
  function NewMaterial(f: MaterialForm, id: string, uploadDate: string): (r: Material)
    ensures r.id == id && r.title == f.title && r.kind == f.kind && r.url == f.url
    ensures r.description == Some(f.description) && r.uploadDate == uploadDate
  {
    Material(id, f.title, f.kind, f.url, Some(f.description), uploadDate)
  }

  function HasId(id: string): Subject -> bool {
    (s: Subject) => s.id == id
  }

  /** `subjects?.find(s => s.id === formData.subjectId)`. */
  function SelectedSubject(subjects: seq<Subject>, subjectId: string): (r: Option<Subject>)
    ensures r.None? <==> forall i :: 0 <= i < |subjects| ==> subjects[i].id != subjectId
    ensures r.Some? ==> exists k :: 0 <= k < |subjects| && subjects[k] == r.value && r.value.id == subjectId &&
                                    forall j :: 0 <= j < k ==> subjects[j].id != subjectId
  {
    Find(subjects, HasId(subjectId))
  }

  datatype TextField = SubjectId | Title | Url | Description

  /** A change event: a text input or select by name, or the type select with its two options. */
  datatype Edit = SetText(field: TextField, value: string) | SetType(kind: MaterialType)

  function ApplyEdit(f: MaterialForm, e: Edit): (r: MaterialForm)
    ensures e.SetType? ==> r == f.(kind := e.kind)
    ensures e.SetText? && e.field == SubjectId ==> r == f.(subjectId := e.value)
    ensures e.SetText? && e.field == Title ==> r == f.(title := e.value)
    ensures e.SetText? && e.field == Url ==> r == f.(url := e.value)
    ensures e.SetText? && e.field == Description ==> r == f.(description := e.value)
  {
    match e
    case SetType(k) => f.(kind := k)
    case SetText(field, v) =>
      match field
      case SubjectId => f.(subjectId := v)
      case Title => f.(title := v)
      case Url => f.(url := v)
      case Description => f.(description := v)
  }

  /** Editing the description never changes the verdict: it is optional. */
  lemma DescriptionIsOptional(f: MaterialForm, d: string)
    ensures Validate(ApplyEdit(f, SetText(Description, d))) == Validate(f)
  {
  }

  /** What submit hands to `onMaterialAdded`. */
  datatype Added = Added(material: Material, subjectId: string)

  class AddMaterialForm {
    var formData: MaterialForm
    var isSubmitting: bool
    var error: string

    constructor ()
      ensures formData == InitialForm && !isSubmitting && error == ""
    {
      formData := InitialForm;
      isSubmitting := false;
      error := "";
    }

    method HandleInputChange(e: Edit)
      modifies this
      ensures formData == ApplyEdit(old(formData), e)
      ensures error == "" && isSubmitting == old(isSubmitting)
    {
      formData := ApplyEdit(formData, e);
      error := "";
    }

    /** Submit: every rejection sets its message and creates nothing; acceptance hands on the material. */
    method HandleSubmit(id: string, uploadDate: string) returns (added: Option<Added>)
      modifies this
      ensures added.None? <==> Validate(formData).Some?
      ensures added.Some? ==> added.value == Added(NewMaterial(formData, id, uploadDate), formData.subjectId)
      ensures error == Validate(formData).GetOr("")
      ensures formData == old(formData) && !isSubmitting
    {
      error := "";
      isSubmitting := true;
      if formData.subjectId == "" || formData.title == "" || formData.url == "" {
        error := RequiredFieldsError;
        isSubmitting := false;
        return None;
      }
      if formData.kind == Youtube && !Contains(formData.url, "youtube.com") && !Contains(formData.url, "youtu.be") {
        error := YoutubeUrlError;
        isSubmitting := false;
        return None;
      }
      if formData.kind == Pdf && !EndsWith(formData.url, ".pdf") {
        error := PdfUrlError;
        isSubmitting := false;
        return None;
      }
      var newMaterial := NewMaterial(formData, id, uploadDate);
      isSubmitting := false;
      return Some(Added(newMaterial, formData.subjectId));
    }
  }
}
