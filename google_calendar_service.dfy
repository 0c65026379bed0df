/** The calendar service's own logic: turning a syllabus event into an all-day
    calendar event, creating one calendar event per syllabus event until the
    first failure, and recognising users who signed in with Google. */
module GoogleCalendarService {
  import opened Wrappers
  import opened JsStrings

  /** A deadline read from a syllabus; `eventType` may be missing. */
  datatype SyllabusEvent = SyllabusEvent(title: string, date: string, course: string, eventType: Option<string>)

  datatype EventTime = EventTime(dateTime: Option<string>, date: Option<string>, timeZone: Option<string>)

  datatype CalendarEvent = CalendarEvent(
    id: Option<string>,
    summary: string,
    description: Option<string>,
    start: EventTime,
    end: EventTime,
    location: Option<string>)

  /** What the calendar API reports back for one request. */
  datatype InsertReply = InsertReply(body: string)

  datatype ApiError = ApiError(message: string)

  const TimeZone := "America/New_York"
  const DefaultType := "Assignment"
  const GooglePrefix := "google-oauth2|"

  /** `event.type || 'Assignment'`. */
  function TypeLabel(eventType: Option<string>): (shown: string)
    ensures shown != ""
    ensures eventType.Some? && eventType.value != "" ==> shown == eventType.value
    ensures eventType.None? || eventType.value == "" ==> shown == DefaultType
  {
    if eventType.Some? && eventType.value != "" then eventType.value else DefaultType
  }

  /** An all-day event on `date`: both ends carry that date, no time of day,
      and the fixed time zone. */
  predicate IsAllDayOn(ev: CalendarEvent, date: string) {
    ev.start.date == Some(date) && ev.end.date == Some(date)
    && ev.start.dateTime.None? && ev.end.dateTime.None?
    && ev.start.timeZone == Some(TimeZone) && ev.end.timeZone == Some(TimeZone)
  }

  /** The calendar event built for one syllabus event. */
  function ToCalendarEvent(e: SyllabusEvent): (r: CalendarEvent)
    ensures IsAllDayOn(r, e.date)
    ensures r.summary == e.title + " - " + e.course
    ensures r.description == Some("Course: " + e.course + "\nType: " + TypeLabel(e.eventType) + "\nAdded by Sylly")
    ensures r.id.None? && r.location.None?
  {
    var when := EventTime(None, Some(e.date), Some(TimeZone));
    CalendarEvent(
      None,
      e.title + " - " + e.course,
      Some("Course: " + e.course + "\nType: " + TypeLabel(e.eventType) + "\nAdded by Sylly"),
      when,
      when,
      None)
  }

  /** A missing type and an empty one give the same calendar event. */
  lemma MissingTypeIsEmptyType(e: SyllabusEvent)
    ensures ToCalendarEvent(e.(eventType := None)) == ToCalendarEvent(e.(eventType := Some("")))
  {
  }

  function ConvertAll(events: seq<SyllabusEvent>): (r: seq<CalendarEvent>)
    ensures |r| == |events|
    ensures forall i :: 0 <= i < |events| ==> r[i] == ToCalendarEvent(events[i])
  {
    seq(|events|, i requires 0 <= i < |events| => ToCalendarEvent(events[i]))
  }

  /** `syncEventsToCalendar`. `token` is the outcome of fetching the access
      token; `insert(n, ev, t)` is the calendar API's answer to the n-th
      creation request of this sync, which may be a failure. `attempted` lists
      the events sent to the API, in the order they were sent. One request is
      made per event, in input order; the first failure stops the loop and is
      passed on instead of the replies gathered so far. */
  method SyncEventsToCalendar(
    events: seq<SyllabusEvent>,
    token: Result<string, ApiError>,
    insert: (nat, CalendarEvent, string) -> Result<InsertReply, ApiError>)
    returns (outcome: Result<seq<InsertReply>, ApiError>, attempted: seq<CalendarEvent>)
    ensures token.Failure? ==> outcome == Failure(token.error) && attempted == []
    ensures token.Success? ==>
      |attempted| <= |events| && attempted == ConvertAll(events[..|attempted|])
      && forall j :: 0 <= j < |attempted| - 1 ==> insert(j, attempted[j], token.value).Success?
    ensures outcome.Success? ==>
      token.Success? && |attempted| == |events| && |outcome.value| == |events|
      && forall j :: 0 <= j < |events| ==> insert(j, attempted[j], token.value) == Success(outcome.value[j])
    ensures outcome.Failure? && token.Success? ==>
      |attempted| > 0 && insert(|attempted| - 1, attempted[|attempted| - 1], token.value) == Failure(outcome.error)
  {
    if token.Failure? {
      return Failure(token.error), [];
    }
    var accessToken := token.value;
    var results: seq<InsertReply> := [];
    attempted := [];
    var i := 0;
    while i < |events|
      invariant 0 <= i <= |events|
      invariant attempted == ConvertAll(events[..i])
      invariant |results| == i
      invariant forall j :: 0 <= j < i ==> insert(j, attempted[j], accessToken) == Success(results[j])
    {
      var calendarEvent := ToCalendarEvent(events[i]);
      attempted := attempted + [calendarEvent];
      var reply := insert(i, calendarEvent, accessToken);
      if reply.Failure? {
        return Failure(reply.error), attempted;
      }
      results := results + [reply.value];
      i := i + 1;
    }
    assert events[..i] == events;
    return Success(results), attempted;
  }

  datatype User = User(sub: Option<string>)

  /** `user?.sub?.startsWith('google-oauth2|')`: undefined (None) when there is
      no user or no subject, and true exactly for subjects of the form
      "google-oauth2|…". */
  function IsGoogleUser(user: Option<User>): (r: Option<bool>)
    ensures r.Some? <==> user.Some? && user.value.sub.Some?
    ensures r == Some(true) <==>
      user.Some? && user.value.sub.Some? && exists rest :: user.value.sub.value == GooglePrefix + rest
  {
    if user.Some? && user.value.sub.Some? then Some(StartsWith(user.value.sub.value, GooglePrefix)) else None
  }
}
