/**
 * The student dashboard of src/features/dashboard/DashboardPage.tsx: the class the stored user
 * names, four stat cards about it, its first three events and one activity per such event.
 * The page reads the `user` key of the store directly, not the session.
 */
module DashboardPage {
  import opened Wrappers
  import opened Types
  import opened Storage

  /** A stat card's value is a number or a string. */
  datatype CardValue = Count(n: nat) | Label(s: string)

  datatype StatCard = StatCard(id: string, title: string, value: CardValue)

  datatype Activity = Activity(id: string, title: string, time: string, kind: string)

  /**
   * What the page shows: a JSON.parse failure on the saved user (the page throws), the
   * "No class joined" view, or the dashboard of a class.
   */
  datatype View =
    | ParseFailure
    | NoClassJoined
    | ClassDashboard(current: ClassRecord, stats: seq<StatCard>, upcomingEvents: seq<Event>, recentActivities: seq<Activity>)

  /** `JSON.parse(localStorage.getItem("user") || "{}").classCode`, or a parse failure. */
  function SavedClassCode(saved: Option<SavedUser>): (r: Option<Option<string>>)
    ensures r.None? <==> saved.Some? && saved.value.Malformed? && saved.value.raw != ""
    ensures r.Some? && r.value.Some? ==> saved.Some? && saved.value.UserJson? && saved.value.info.classCode == r.value
  {
    match saved
    case None => Some(None)
    case Some(UserJson(info)) => Some(info.classCode)
    case Some(Malformed(raw)) => if raw == "" then Some(None) else None
  }

  function Length<T>(xs: Option<seq<T>>): (r: nat)
    ensures r == if xs.Some? then |xs.value| else 0
  {
    if xs.Some? then |xs.value| else 0
  }

  /** The four cards, in the fixed order of ids 1 to 4. */
  function Stats(c: ClassRecord): (r: seq<StatCard>)
    ensures |r| == 4
    ensures forall i :: 0 <= i < 4 ==> r[i].id == ["1", "2", "3", "4"][i]
    ensures r[0].value == Count(Length(c.subjects)) && r[1].value == Count(Length(c.events))
    ensures r[2].value == Count(|Roster(c)|)
    ensures r[3].value == Label(if c.code == "" then "N/A" else c.code)
  {
    [StatCard("1", "Total Subjects", Count(Length(c.subjects))),
     StatCard("2", "Total Events", Count(Length(c.events))),
     StatCard("3", "Total Students", Count(|Roster(c)|)),
     StatCard("4", "Class Code", Label(if c.code == "" then "N/A" else c.code))]
  }

  /** `currentClass.events?.slice(0, 3) || []`. */
  function UpcomingEvents(c: ClassRecord): (r: seq<Event>)
    ensures var es := if c.events.Some? then c.events.value else [];
      |r| == (if |es| < 3 then |es| else 3) && r == es[..|r|]
  {
    match c.events
    case None => []
    case Some(es) => if |es| <= 3 then es else es[..3]
  }

  function ActivityOf(e: Event): Activity {
    Activity(e.id, "Event: " + e.title, e.date, "event")
  }

  function RecentActivities(events: seq<Event>): (r: seq<Activity>)
    ensures |r| == |events|
    ensures forall i :: 0 <= i < |r| ==>
      r[i].id == events[i].id && r[i].title == "Event: " + events[i].title &&
      r[i].time == events[i].date && r[i].kind == "event"
  {
    seq(|events|, i requires 0 <= i < |events| => ActivityOf(events[i]))
  }

  function Render(saved: Option<SavedUser>, classes: seq<ClassRecord>): (r: View)
    ensures r.ParseFailure? <==> SavedClassCode(saved).None?
    ensures r.ClassDashboard? ==> SavedClassCode(saved) == Some(Some(r.current.code))
    ensures r.NoClassJoined? <==> SavedClassCode(saved).Some? && ClassFor(classes, SavedClassCode(saved).value).None?
    ensures r.ClassDashboard? ==>
      r.stats == Stats(r.current) && r.upcomingEvents == UpcomingEvents(r.current) &&
      r.recentActivities == RecentActivities(r.upcomingEvents)
  {
    match SavedClassCode(saved)
    case None => ParseFailure
    case Some(code) =>
      match ClassFor(classes, code)
      case None => NoClassJoined
      case Some(c) =>
        var upcoming := UpcomingEvents(c);
        ClassDashboard(c, Stats(c), upcoming, RecentActivities(upcoming))
  }

  /** The class shown is the first one with the saved user's class code. */
  lemma ShownClassIsFirstMatch(saved: Option<SavedUser>, classes: seq<ClassRecord>)
    requires Render(saved, classes).ClassDashboard?
    ensures var c := Render(saved, classes).current;
      exists k :: 0 <= k < |classes| && classes[k] == c &&
        forall j :: 0 <= j < k ==> classes[j].code != c.code
  {
  }

  /** At most three events and activities are shown, one activity per event, in order. */
  lemma AtMostThree(saved: Option<SavedUser>, classes: seq<ClassRecord>)
    requires Render(saved, classes).ClassDashboard?
    ensures var v := Render(saved, classes);
      |v.recentActivities| == |v.upcomingEvents| <= 3 &&
      (Length(v.current.events) >= 3 ==> |v.upcomingEvents| == 3)
  {
  }
}
