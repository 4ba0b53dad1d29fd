/**
 * The event form of src/features/admin/CreateEvent.tsx: the required-field check, the event
 * record built from the form, and the form state the handlers step through. `Date.now()` is
 * the `id` parameter; the `onEventCreated` callback is modelled by returning the event.
 */
module CreateEvent {
  import opened Wrappers
  import opened Text
  import opened Types

  datatype EventForm = EventForm(
    title: string,
    description: string,
    date: string,
    time: string,
    venue: string,
    organizer: string,
    posterUrl: string,
    kind: EventType)

  const InitialForm: EventForm := EventForm("", "", "", "", "", "", "", Academic)

  const RequiredFieldsError: string := "Please fill in all required fields"

  const DescriptionLimit: nat := 100

  /** Some required field is empty; the poster URL is optional. */
  predicate MissingRequired(f: EventForm) {
    f.title == "" || f.description == "" || f.date == "" || f.time == "" || f.venue == "" || f.organizer == ""
  }

  /** `description.substring(0, 100) + (description.length > 100 ? '...' : '')`. */
  function ShortDescription(description: string): (r: string)
    ensures |r| <= DescriptionLimit + 3
    ensures |description| <= DescriptionLimit ==> r == description
    ensures |description| > DescriptionLimit ==> r == description[..DescriptionLimit] + "..."
  {
    Prefix(description, DescriptionLimit) + (if |description| > DescriptionLimit then "..." else "")
  }

  /** The event a valid form creates. */
  function NewEvent(f: EventForm, id: string): (r: Event)
    ensures r.id == id && r.title == f.title && r.date == f.date && r.time == f.time
    ensures r.location == f.venue && r.kind == f.kind && r.description == f.description
    ensures r.organizer == f.organizer && r.shortDescription == ShortDescription(f.description)
    ensures r.viewCount == 0 && r.registeredCount == 0 && r.capacity == 100 && r.isRegistered == Some(false)
    ensures r.tags == [EventTypeName(f.kind)]
    ensures r.imageUrl == if f.posterUrl == "" then None else Some(f.posterUrl)
  {
    Event(id, f.title, f.date, f.time, f.venue, f.kind, f.description, ShortDescription(f.description),
          0, 100, 0, f.organizer, [EventTypeName(f.kind)],
          if f.posterUrl == "" then None else Some(f.posterUrl), Some(false))
  }

  /** The text inputs of the form, by their `name` attribute. */
  datatype TextField = Title | Description | Date | Time | Venue | Organizer | PosterUrl

  /** A change event: a text input, or the type select, whose options are the four event types. */
  datatype Edit = SetText(field: TextField, value: string) | SetType(kind: EventType)

  /** `{ ...prev, [name]: value }`. */
  function ApplyEdit(f: EventForm, e: Edit): (r: EventForm)
    ensures e.SetType? ==> r == f.(kind := e.kind)
    ensures e.SetText? && e.field == Title ==> r == f.(title := e.value)
    ensures e.SetText? && e.field == Description ==> r == f.(description := e.value)
    ensures e.SetText? && e.field == Date ==> r == f.(date := e.value)
    ensures e.SetText? && e.field == Time ==> r == f.(time := e.value)
    ensures e.SetText? && e.field == Venue ==> r == f.(venue := e.value)
    ensures e.SetText? && e.field == Organizer ==> r == f.(organizer := e.value)
    ensures e.SetText? && e.field == PosterUrl ==> r == f.(posterUrl := e.value)
  {
    match e
    case SetType(k) => f.(kind := k)
    case SetText(field, v) =>
      match field
      case Title => f.(title := v)
      case Description => f.(description := v)
      case Date => f.(date := v)
      case Time => f.(time := v)
      case Venue => f.(venue := v)
      case Organizer => f.(organizer := v)
      case PosterUrl => f.(posterUrl := v)
  }

  /** Filling the six required fields with non-empty text makes the form valid, whatever else holds. */
  lemma RequiredFieldsSuffice(f: EventForm, t: string, d: string, dt: string, tm: string, v: string, o: string)
    requires t != "" && d != "" && dt != "" && tm != "" && v != "" && o != ""
    ensures !MissingRequired(ApplyEdit(ApplyEdit(ApplyEdit(ApplyEdit(ApplyEdit(ApplyEdit(f,
              SetText(Title, t)), SetText(Description, d)), SetText(Date, dt)), SetText(Time, tm)),
              SetText(Venue, v)), SetText(Organizer, o)))
  {
  }

  class CreateEventForm {
    var formData: EventForm
    var isSubmitting: bool
    var error: string

    constructor ()
      ensures formData == InitialForm && !isSubmitting && error == ""
    {
      formData := InitialForm;
      isSubmitting := false;
      error := "";
    }

    method HandleInputChange(e: Edit)
      modifies this
      ensures formData == ApplyEdit(old(formData), e)
      ensures error == "" && isSubmitting == old(isSubmitting)
    {
      formData := ApplyEdit(formData, e);
      error := "";
    }

    /** Submit: an incomplete form sets the error and creates nothing; a complete one creates the event. */
    method HandleSubmit(id: string) returns (created: Option<Event>)
      modifies this
      ensures created.None? <==> MissingRequired(formData)
      ensures created.Some? ==> created.value == NewEvent(formData, id)
      ensures error == if MissingRequired(formData) then RequiredFieldsError else ""
      ensures formData == old(formData) && !isSubmitting
    {
      error := "";
      isSubmitting := true;
      if MissingRequired(formData) {
        error := RequiredFieldsError;
        isSubmitting := false;
        return None;
      }
      var newEvent := NewEvent(formData, id);
      isSubmitting := false;
      return Some(newEvent);
    }
  }
}
