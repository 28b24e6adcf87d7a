/**
 * The calendar writer's and task writer's request bodies: how one extracted
 * event or task becomes the resource sent to the calendar or task service.
 */
module Payloads {
  import opened Wrappers

  /** An event as the language model describes it; `location` may be missing. */
  datatype EventDraft = EventDraft(
    title: string,
    description: string,
    startDate: string,
    startTime: string,
    endDate: string,
    endTime: string,
    location: Option<string>)

  /** A task as the language model describes it; `priority` is free text. */
  datatype TaskDraft = TaskDraft(title: string, description: string, dueDate: string, priority: string)

  datatype EventDateTime = EventDateTime(dateTime: string, timeZone: string)

  /** One reminder override; `channel` is the override's delivery method ("email", "popup"). */
  datatype Reminder = Reminder(channel: string, minutes: nat)

  datatype Reminders = Reminders(useDefault: bool, overrides: seq<Reminder>)

  /** The body of a calendar "insert event" request. */
  datatype EventResource = EventResource(
    summary: string,
    description: string,
    location: string,
    start: EventDateTime,
    end: EventDateTime,
    reminders: Reminders)

  /** The body of a task "insert task" request. */
  datatype TaskResource = TaskResource(title: string, notes: string, due: string)

  /** The calendar every event is inserted into. */
  const CalendarId: string := "primary"

  /** The one time zone attached to every start and end. */
  const TimeZone: string := "America/New_York"

  const MinutesPerDay: nat := 24 * 60

  /** The due time appended to every task's date: the last second of the day, UTC. */
  const EndOfDayUtc: string := "T23:59:59.000Z"

  /**
   * A date and a time joined as a local date-time with zero seconds, whatever
   * the two strings hold: the date, then 'T', then the time, then ":00".
   */
  function LocalDateTime(date: string, time: string): (s: string)
    ensures |s| == |date| + |time| + 4
    ensures s[..|date|] == date && s[|date|] == 'T'
    ensures s[|date| + 1..|s| - 3] == time && s[|s| - 3..] == ":00"
  {
    date + "T" + time + ":00"
  }

  /** The calendar resource for an event draft. */
  function EventResourceOf(e: EventDraft): (r: EventResource)
    ensures r.summary == e.title && r.description == e.description
    ensures r.location == (if e.location.Some? then e.location.value else "")
    ensures r.start.timeZone == TimeZone && r.end.timeZone == TimeZone
    ensures !r.reminders.useDefault
    ensures r.reminders.overrides == [Reminder("email", 1440), Reminder("popup", 30)]
  {
    EventResource(
      e.title,
      e.description,
      e.location.GetOr(""),
      EventDateTime(LocalDateTime(e.startDate, e.startTime), TimeZone),
      EventDateTime(LocalDateTime(e.endDate, e.endTime), TimeZone),
      Reminders(false, [Reminder("email", MinutesPerDay), Reminder("popup", 30)]))
  }

  /** The task resource for a task draft; the priority is not sent. */
  function TaskResourceOf(t: TaskDraft): (r: TaskResource)
    ensures r.title == t.title && r.notes == t.description
    ensures |r.due| == |t.dueDate| + 14 && r.due[..|t.dueDate|] == t.dueDate
  {
    TaskResource(t.title, t.description, t.dueDate + EndOfDayUtc)
  }

  // ----- the inverses: reading the draft's fields back out of a resource -----

  /** The position of the first `c` in `s`, if any. */
  function IndexOf(s: string, c: char): (k: Option<nat>)
    ensures k.None? ==> c !in s
    ensures k.Some? ==> k.value < |s| && s[k.value] == c && c !in s[..k.value]
  {
    if s == [] then None
    else if s[0] == c then Some(0)
    else
      match IndexOf(s[1..], c)
      case None => None
      case Some(k) =>
        assert s[..k + 1] == [s[0]] + s[1..][..k];
        Some(k + 1)
  }

  /** Splits `date + "T" + time + ":00"` at its first 'T' and drops the seconds. */
  function SplitLocalDateTime(s: string): Option<(string, string)> {
    match IndexOf(s, 'T')
    case None => None
    case Some(k) =>
      if |s| >= k + 4 && s[|s| - 3..] == ":00" then Some((s[..k], s[k + 1..|s| - 3])) else None
  }

  /** The date a task is due on, read back from its `due` string. */
  function DueDateOf(due: string): Option<string> {
    if |due| >= |EndOfDayUtc| && due[|due| - |EndOfDayUtc|..] == EndOfDayUtc then
      Some(due[..|due| - |EndOfDayUtc|])
    else None
  }

  /**
   * Whatever strings the draft holds, the start is its start date, 'T', its
   * start time and ":00", and the end likewise.
   */
  lemma EventTimesShape(e: EventDraft)
    ensures var s := EventResourceOf(e).start.dateTime;
            |s| == |e.startDate| + |e.startTime| + 4 && s[..|e.startDate|] == e.startDate &&
            s[|e.startDate|] == 'T' && s[|e.startDate| + 1..|s| - 3] == e.startTime && s[|s| - 3..] == ":00"
    ensures var s := EventResourceOf(e).end.dateTime;
            |s| == |e.endDate| + |e.endTime| + 4 && s[..|e.endDate|] == e.endDate &&
            s[|e.endDate|] == 'T' && s[|e.endDate| + 1..|s| - 3] == e.endTime && s[|s| - 3..] == ":00"
  {
  }

  /**
   * An event's start and end are recovered from the resource whenever the
   * dates hold no 'T' (true of every ISO YYYY-MM-DD date).
   */
  lemma EventTimesRoundTrip(e: EventDraft)
    requires 'T' !in e.startDate && 'T' !in e.endDate
    ensures SplitLocalDateTime(EventResourceOf(e).start.dateTime) == Some((e.startDate, e.startTime))
    ensures SplitLocalDateTime(EventResourceOf(e).end.dateTime) == Some((e.endDate, e.endTime))
  {
    LocalDateTimeRoundTrip(e.startDate, e.startTime);
    LocalDateTimeRoundTrip(e.endDate, e.endTime);
  }

  lemma LocalDateTimeRoundTrip(date: string, time: string)
    requires 'T' !in date
    ensures SplitLocalDateTime(LocalDateTime(date, time)) == Some((date, time))
  {
    var s := LocalDateTime(date, time);
    assert s == date + ("T" + time + ":00");
    assert s[..|date|] == date && s[|date|] == 'T';
    assert 'T' in s;
    assert forall j :: 0 <= j < |date| ==> s[j] == date[j];
    assert s[..|date| + 1][|date|] == 'T';
    assert IndexOf(s, 'T') == Some(|date|);
    assert s[|s| - 3..] == ":00";
    assert s[|date| + 1..|s| - 3] == time;
  }

  /** A task's due date is recovered from the resource, whatever it is. */
  lemma DueDateRoundTrip(t: TaskDraft)
    ensures DueDateOf(TaskResourceOf(t).due) == Some(t.dueDate)
  {
    var due := TaskResourceOf(t).due;
    assert due[|due| - |EndOfDayUtc|..] == EndOfDayUtc;
  }
}
