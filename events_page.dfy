/**
 * The event list of src/features/events/EventsPage.tsx: the events of the class the session
 * user belongs to, one card each, in stored order.
 */
module EventsPage {
  import opened Wrappers
  import opened Types
  import SubjectsPage

  /**
   * `studentClass ? studentClass.events : []`. A found class without an `events` array makes
   * `events.length` throw; that case is `None`.
   */
  function Events(classes: seq<ClassRecord>, user: Option<UserInfo>): (r: Option<seq<Event>>)
    ensures SubjectsPage.StudentClass(classes, user).None? ==> r == Some([])
    ensures SubjectsPage.StudentClass(classes, user).Some? ==> r == SubjectsPage.StudentClass(classes, user).value.events
  {
    match SubjectsPage.StudentClass(classes, user)
    case None => Some([])
    case Some(c) => c.events
  }

  datatype View =
    | EmptyList(classFound: bool)
    | EventCards(cards: seq<Event>)
    | Crash

  /** One card per event in stored order; an empty list gives the empty state, worded by whether a class was found. */
  function Render(classes: seq<ClassRecord>, user: Option<UserInfo>): (r: View)
    ensures r.EmptyList? <==> Events(classes, user) == Some([])
    ensures r.EmptyList? ==> r.classFound == SubjectsPage.StudentClass(classes, user).Some?
    ensures r.EventCards? ==> Events(classes, user) == Some(r.cards) && |r.cards| > 0
    ensures r.Crash? <==> Events(classes, user).None?
  {
    match Events(classes, user)
    case None => Crash
    case Some(events) =>
      if |events| == 0 then EmptyList(SubjectsPage.StudentClass(classes, user).Some?) else EventCards(events)
  }
}
