/**
 * The server's processing functions as methods over its module-level state:
 * the mail and calendar clients (present or not) and the calls issued so far.
 * Each method is proved to issue exactly the calls its trace function in
 * `Pipeline` describes.
 */
module Server {
  import opened Wrappers
  import opened Content
  import opened Payloads
  import opened Extraction
  import opened Services
  import opened Pipeline

  class Automation {
    /** Whether the mail client has been created. */
    var gmail: bool
    /** Whether the calendar client has been created. */
    var calendar: bool
    /** Every request sent so far, in order. */
    var trace: seq<Call>
    /** The services' replies, the decoder and the parser. */
    const env: Env

    /** The state client initialisation left behind; no request has been sent. */
    constructor(env: Env, gmail: bool, calendar: bool)
      ensures this.env == env && this.gmail == gmail && this.calendar == calendar
      ensures trace == []
    {
      this.env := env;
      this.gmail := gmail;
      this.calendar := calendar;
      trace := [];
    }

    /** Sends one request and waits for its reply. */
    method Send(c: Call) returns (reply: Reply)
      modifies this`trace
      ensures trace == old(trace) + [c]
      ensures reply == env.answer(trace)
    {
      trace := trace + [c];
      reply := env.answer(trace);
    }

    /** Inserts one event into the primary calendar; every error is swallowed. */
    method CreateCalendarEvent(e: EventDraft)
      modifies this`trace
      ensures trace == CreateEventTrace(calendar, e, old(trace))
    {
      var resource := EventResourceOf(e);
      if !calendar {
        // reading `events` of the missing client throws; the error is logged
        return;
      }
      var result := Send(InsertEvent(CalendarId, resource));
    }

    /** Lists the task lists and inserts the task into the first; every error is swallowed. */
    method CreateTask(t: TaskDraft)
      modifies this`trace
      ensures trace == CreateTaskTrace(env, t, old(trace))
    {
      var lists := Send(ListTaskLists);
      if !lists.TaskListIds? || |lists.ids| == 0 {
        // a failed request, or reading `id` of a missing first item, throws; the error is logged
        return;
      }
      var defaultTaskList := lists.ids[0];
      var task := TaskResourceOf(t);
      var result := Send(InsertTask(defaultTaskList, task));
    }

    /** Asks the completion service for the email's events and tasks; any failure gives none. */
    method AnalyzeEmailWithAI(c: EmailContent) returns (analysis: Analysis)
      modifies this`trace
      ensures (trace, analysis) == AnalyzeTrace(env, c, old(trace))
    {
      var response := Send(CreateCompletion(RequestFor(c)));
      match response
      case CompletionText(text) =>
        var parsed := env.parse(text);
        analysis := if parsed.Some? then parsed.value else NoFindings;
      case _ =>
        analysis := NoFindings;
    }

    /** Extracts, analyses, then creates every event and then every task, one at a time. */
    method ProcessEmail(m: RawMessage)
      modifies this`trace
      ensures trace == ProcessTrace(env, calendar, m, old(trace))
    {
      var content := ExtractEmailContent(m, env.decode);
      if content.Err? {
        // the extractor threw; the error is logged
        return;
      }
      var analysis := AnalyzeEmailWithAI(content.value);
      ghost var analysed := trace;
      var events := analysis.events;
      for i := 0 to |events|
        invariant EventsTrace(calendar, events[i..], trace) == EventsTrace(calendar, events, analysed)
      {
        assert events[i..][0] == events[i] && events[i..][1..] == events[i + 1..];
        CreateCalendarEvent(events[i]);
      }
      assert events[|events|..] == [];
      ghost var created := trace;
      var tasks := analysis.tasks;
      for i := 0 to |tasks|
        invariant TasksTrace(env, tasks[i..], trace) == TasksTrace(env, tasks, created)
      {
        assert tasks[i..][0] == tasks[i] && tasks[i..][1..] == tasks[i + 1..];
        CreateTask(tasks[i]);
      }
      assert tasks[|tasks|..] == [];
    }

    /** One polling cycle started at `now` (milliseconds since the epoch). */
    method CheckEmails(now: int)
      modifies this`trace
      ensures trace == CycleTrace(env, gmail, calendar, now, old(trace))
    {
      if !gmail {
        return;
      }
      var query := LookbackQuery(now);
      var response := Send(ListMessages(Me, query, MaxResults));
      if !response.MessageIds? || |response.ids| == 0 {
        // a failed listing throws to the cycle's handler; an empty one ends the cycle
        return;
      }
      var ids := response.ids;
      ghost var listed := trace;
      var i := 0;
      while i < |ids|
        invariant 0 <= i <= |ids|
        invariant FetchTrace(env, calendar, ids[i..], trace) == FetchTrace(env, calendar, ids, listed)
      {
        assert ids[i..][0] == ids[i] && ids[i..][1..] == ids[i + 1..];
        var email := Send(GetMessage(Me, ids[i]));
        if !email.MessageData? {
          // the failed fetch throws to the cycle's handler: the remaining messages are skipped
          return;
        }
        ProcessEmail(email.message);
        i := i + 1;
      }
      assert ids[i..] == [];
    }
  }
}
