/**
 * What one polling cycle does, as functions from the trace so far to the
 * trace afterwards: which calls each step issues, in which order, and how
 * each step's failures are contained.
 */
module Pipeline {
  import opened Wrappers
  import opened Content
  import opened Payloads
  import opened Extraction
  import opened Services
  import opened Numbers

  // ----- calendar writer -----

  /**
   * Creating one event: a single insert into the primary calendar. Without a
   * calendar client the insert throws before any request leaves, and the
   * error is swallowed. The reply is never looked at.
   */
  function CreateEventTrace(calendar: bool, e: EventDraft, h: seq<Call>): seq<Call> {
    if calendar then h + [InsertEvent(CalendarId, EventResourceOf(e))] else h
  }

  /** Creating the events one after another, in order. */
  function EventsTrace(calendar: bool, es: seq<EventDraft>, h: seq<Call>): seq<Call> {
    if es == [] then h else EventsTrace(calendar, es[1..], CreateEventTrace(calendar, es[0], h))
  }

  /** One insert call per draft, in draft order. */
  function EventInserts(es: seq<EventDraft>): seq<Call> {
    if es == [] then [] else [InsertEvent(CalendarId, EventResourceOf(es[0]))] + EventInserts(es[1..])
  }

  // ----- task writer -----

  /** The id of the first task list in a reply to a list request; `None` when there is none to read. */
  function FirstList(r: Reply): Option<string> {
    if r.TaskListIds? && |r.ids| > 0 then Some(r.ids[0]) else None
  }

  /**
   * Creating one task: list the task lists afresh, then insert into the
   * first one. A failed listing or an empty one throws before the insert,
   * and the error is swallowed.
   */
  function CreateTaskTrace(env: Env, t: TaskDraft, h: seq<Call>): seq<Call> {
    var queried := h + [ListTaskLists];
    match FirstList(env.answer(queried))
    case None => queried
    case Some(list) => queried + [InsertTask(list, TaskResourceOf(t))]
  }

  /** Creating the tasks one after another, in order. */
  function TasksTrace(env: Env, ts: seq<TaskDraft>, h: seq<Call>): seq<Call> {
    if ts == [] then h else TasksTrace(env, ts[1..], CreateTaskTrace(env, ts[0], h))
  }

  /** The task resources of the drafts, in order. */
  function TaskResources(ts: seq<TaskDraft>): seq<TaskResource> {
    if ts == [] then [] else [TaskResourceOf(ts[0])] + TaskResources(ts[1..])
  }

  /** `n` task-list requests in a row. */
  function ListRequests(n: nat): seq<Call> {
    if n == 0 then [] else [ListTaskLists] + ListRequests(n - 1)
  }

  /** The service always returns at least one task list. */
  ghost predicate ListsAlwaysExist(env: Env) {
    forall h: seq<Call> :: FirstList(env.answer(h + [ListTaskLists])).Some?
  }

  /** The service never returns a task list. */
  ghost predicate ListsNeverExist(env: Env) {
    forall h: seq<Call> :: FirstList(env.answer(h + [ListTaskLists])).None?
  }

  /**
   * From position `from` on, every task insert comes right after a task-list
   * request and goes to the first list that request returned.
   */
  ghost predicate InsertsFollowTheirQuery(env: Env, r: seq<Call>, from: nat) {
    forall k :: from <= k < |r| && r[k].InsertTask? ==>
      0 < k && r[k - 1] == ListTaskLists && FirstList(env.answer(r[..k])) == Some(r[k].tasklist)
  }

  // ----- structured extraction client -----

  /**
   * Analysing an email: one completion request. The reply's text is parsed;
   * a failed request or an unparsable reply gives no findings.
   */
  function AnalyzeTrace(env: Env, c: EmailContent, h: seq<Call>): (seq<Call>, Analysis) {
    var asked := h + [CreateCompletion(RequestFor(c))];
    var text := match env.answer(asked) case CompletionText(t) => Some(t) case _ => None;
    (asked, Interpret(text, env.parse))
  }

  // ----- one message -----

  /**
   * Processing one message: extract its content, analyse it, create its
   * events, then its tasks. Extraction throwing ends the message's
   * processing with no call issued.
   */
  function ProcessTrace(env: Env, calendar: bool, m: RawMessage, h: seq<Call>): seq<Call> {
    match Extract(m, env.decode)
    case Err(_) => h
    case Ok(c) =>
      var (asked, analysis) := AnalyzeTrace(env, c, h);
      TasksTrace(env, analysis.tasks, EventsTrace(calendar, analysis.events, asked))
  }

  predicate IsMailCall(c: Call) {
    c.ListMessages? || c.GetMessage?
  }

  // ----- the poller -----

  /** The lookback window: one hour, in milliseconds. */
  const LookbackMs: int := 60 * 60 * 1000

  /** The largest distance from the epoch a date can have, in milliseconds. */
  const MaxTimeMs: int := 8_640_000_000_000_000

  /**
   * The listing's lower bound in whole seconds: one hour before `now` (in
   * milliseconds), rounded down. `None` when that instant is outside the
   * date range, where it is not a number.
   */
  function LookbackSeconds(now: int): Option<int> {
    var since := now - LookbackMs;
    if -MaxTimeMs <= since <= MaxTimeMs then Some(since / 1000) else None
  }

  /** The mail search query for a cycle started at `now`. */
  function LookbackQuery(now: int): string {
    "after:" + match LookbackSeconds(now) case Some(s) => IntToString(s) case None => "NaN"
  }

  /**
   * Fetching the listed messages in order, processing each before fetching
   * the next. A failed fetch ends the cycle: the remaining ids are skipped.
   */
  function FetchTrace(env: Env, calendar: bool, ids: seq<string>, h: seq<Call>): seq<Call> {
    if ids == [] then h
    else
      var asked := h + [GetMessage(Me, ids[0])];
      match env.answer(asked)
      case MessageData(m) => FetchTrace(env, calendar, ids[1..], ProcessTrace(env, calendar, m, asked))
      case _ => asked
  }

  /**
   * One polling cycle. Without a mail client nothing is issued. Otherwise
   * the recent messages are listed; a failed or empty listing ends the cycle.
   */
  function CycleTrace(env: Env, gmail: bool, calendar: bool, now: int, h: seq<Call>): seq<Call> {
    if !gmail then h
    else
      var listed := h + [ListMessages(Me, LookbackQuery(now), MaxResults)];
      match env.answer(listed)
      case MessageIds(ids) => if |ids| == 0 then listed else FetchTrace(env, calendar, ids, listed)
      case _ => listed
  }

  /** Every fetch succeeds. */
  ghost predicate FetchesSucceed(env: Env) {
    forall h: seq<Call>, id: string :: env.answer(h + [GetMessage(Me, id)]).MessageData?
  }

  // ===== properties =====

  /**
   * The events produce exactly one insert each, in order, whatever the
   * service answers: a failed insert does not stop the later ones.
   */
  lemma {:induction false} EventsTraceIsOneInsertPerEvent(calendar: bool, es: seq<EventDraft>, h: seq<Call>)
    ensures EventsTrace(calendar, es, h) == h + (if calendar then EventInserts(es) else [])
  {
    if es == [] {
      assert h + [] == h;
    } else {
      var h1 := CreateEventTrace(calendar, es[0], h);
      EventsTraceIsOneInsertPerEvent(calendar, es[1..], h1);
      if calendar {
        assert h1 + EventInserts(es[1..]) == h + EventInserts(es);
      } else {
        assert h + [] == h;
      }
    }
  }

  lemma {:induction false} EventInsertsLength(es: seq<EventDraft>)
    ensures |EventInserts(es)| == |es|
    ensures forall k :: 0 <= k < |es| ==> EventInserts(es)[k] == InsertEvent(CalendarId, EventResourceOf(es[k]))
  {
    if es != [] {
      EventInsertsLength(es[1..]);
      assert forall k :: 1 <= k < |es| ==> EventInserts(es)[k] == EventInserts(es[1..])[k - 1];
    }
  }

  /**
   * One task creation issues a list request, then an insert into the first
   * returned list exactly when the listing returned one.
   */
  lemma CreateTaskShape(env: Env, t: TaskDraft, h: seq<Call>)
    ensures var first := FirstList(env.answer(h + [ListTaskLists]));
            first.None? ==> CreateTaskTrace(env, t, h) == h + [ListTaskLists]
    ensures var first := FirstList(env.answer(h + [ListTaskLists]));
            first.Some? ==>
              CreateTaskTrace(env, t, h) == h + [ListTaskLists, InsertTask(first.value, TaskResourceOf(t))]
  {
  }

  /**
   * One task's calls `h1[|h|..]` (a list request, then at most one insert),
   * followed by the rest `r[|h1|..]`.
   */
  lemma TaskStep(h: seq<Call>, h1: seq<Call>, r: seq<Call>)
    requires |h| < |h1| <= |h| + 2 && h1[..|h|] == h && h1[|h|] == ListTaskLists
    requires |h1| == |h| + 2 ==> h1[|h| + 1].InsertTask?
    requires |h1| <= |r| && r[..|h1|] == h1
    ensures r[..|h|] == h
    ensures forall k :: |h| <= k < |h1| ==> IsTaskCall(r[k])
    ensures |Select(r[|h|..], TaskListQuery)| == 1 + |Select(r[|h1|..], TaskListQuery)|
    ensures |Select(r[|h|..], InsertedTask)| <= 1 + |Select(r[|h1|..], InsertedTask)|
  {
    var own := h1[|h|..];
    assert r[..|h|] == h1[..|h|];
    assert r[|h|..] == own + r[|h1|..];
    SelectAppend(own, r[|h1|..], TaskListQuery);
    SelectAppend(own, r[|h1|..], InsertedTask);
    assert own[1..] == [] || own[1..] == [h1[|h| + 1]];
    assert own == [ListTaskLists] + own[1..];
    SelectAppend([ListTaskLists], own[1..], TaskListQuery);
    assert Select([ListTaskLists], TaskListQuery) == [ListTaskLists];
    forall k | |h| <= k < |h1| ensures IsTaskCall(r[k]) {
      assert r[k] == h1[k];
    }
  }

  /**
   * The tasks add task calls only: one task-list request per task, and at
   * most one insert per task.
   */
  lemma {:induction false} TasksTraceShape(env: Env, ts: seq<TaskDraft>, h: seq<Call>)
    ensures |h| <= |TasksTrace(env, ts, h)|
    ensures var r := TasksTrace(env, ts, h);
            r[..|h|] == h &&
            (forall k :: |h| <= k < |r| ==> IsTaskCall(r[k])) &&
            |Select(r[|h|..], TaskListQuery)| == |ts| &&
            |Select(r[|h|..], InsertedTask)| <= |ts|
  {
    if ts == [] {
      assert h[|h|..] == [];
    } else {
      var h1 := CreateTaskTrace(env, ts[0], h);
      var r := TasksTrace(env, ts, h);
      assert r == TasksTrace(env, ts[1..], h1);
      TasksTraceShape(env, ts[1..], h1);
      CreateTaskShape(env, ts[0], h);
      TaskStep(h, h1, r);
    }
  }

  /** Each task insert goes to the first list returned by the request just before it. */
  lemma {:induction false} TasksGoToFirstList(env: Env, ts: seq<TaskDraft>, h: seq<Call>)
    ensures InsertsFollowTheirQuery(env, TasksTrace(env, ts, h), |h|)
  {
    if ts != [] {
      var h1 := CreateTaskTrace(env, ts[0], h);
      var r := TasksTrace(env, ts, h);
      TasksGoToFirstList(env, ts[1..], h1);
      TasksTraceShape(env, ts[1..], h1);
      CreateTaskShape(env, ts[0], h);
      forall k | |h| <= k < |r| && r[k].InsertTask?
        ensures 0 < k && r[k - 1] == ListTaskLists && FirstList(env.answer(r[..k])) == Some(r[k].tasklist)
      {
        if k < |h1| {
          assert r[..|h1|] == h1;
          assert k == |h| + 1 && r[k] == h1[k] && r[k - 1] == h1[k - 1];
          assert r[..k] == h + [ListTaskLists];
        }
      }
    }
  }

  /** When the service always has a task list, every task is inserted, in order. */
  lemma {:induction false} TasksAllInserted(env: Env, ts: seq<TaskDraft>, h: seq<Call>)
    requires ListsAlwaysExist(env)
    ensures var r := TasksTrace(env, ts, h);
            |h| <= |r| && Select(r[|h|..], InsertedTask) == TaskResources(ts)
  {
    var r := TasksTrace(env, ts, h);
    TasksTraceShape(env, ts, h);
    if ts == [] {
      assert r[|h|..] == [];
    } else {
      var h1 := CreateTaskTrace(env, ts[0], h);
      TasksAllInserted(env, ts[1..], h1);
      TasksTraceShape(env, ts[1..], h1);
      assert FirstList(env.answer(h + [ListTaskLists])).Some?;
      var list := FirstList(env.answer(h + [ListTaskLists])).value;
      assert h1 == h + [ListTaskLists, InsertTask(list, TaskResourceOf(ts[0]))];
      assert r[..|h1|] == h1;
      assert r[|h|..] == [ListTaskLists, InsertTask(list, TaskResourceOf(ts[0]))] + r[|h1|..];
      SelectAppend([ListTaskLists, InsertTask(list, TaskResourceOf(ts[0]))], r[|h1|..], InsertedTask);
      assert Select([ListTaskLists, InsertTask(list, TaskResourceOf(ts[0]))], InsertedTask) == [TaskResourceOf(ts[0])] by {
        assert [ListTaskLists, InsertTask(list, TaskResourceOf(ts[0]))][1..] == [InsertTask(list, TaskResourceOf(ts[0]))];
      }
    }
  }

  /** When the service never has a task list, each task costs one list request and nothing is inserted. */
  lemma {:induction false} TasksNoneInserted(env: Env, ts: seq<TaskDraft>, h: seq<Call>)
    requires ListsNeverExist(env)
    ensures TasksTrace(env, ts, h) == h + ListRequests(|ts|)
  {
    if ts == [] {
      assert h + [] == h;
    } else {
      var h1 := CreateTaskTrace(env, ts[0], h);
      assert FirstList(env.answer(h + [ListTaskLists])).None?;
      assert h1 == h + [ListTaskLists];
      TasksNoneInserted(env, ts[1..], h1);
      assert h1 + ListRequests(|ts| - 1) == h + ListRequests(|ts|);
    }
  }

  /**
   * Analysing issues exactly one completion request; unless the reply is text
   * that parses, the analysis is empty.
   */
  lemma AnalyzeFallback(env: Env, c: EmailContent, h: seq<Call>)
    ensures AnalyzeTrace(env, c, h).0 == h + [CreateCompletion(RequestFor(c))]
    ensures var reply := env.answer(h + [CreateCompletion(RequestFor(c))]);
            !(reply.CompletionText? && env.parse(reply.content).Some?) ==> AnalyzeTrace(env, c, h).1 == NoFindings
  {
  }

  /**
   * A message whose content cannot be extracted issues nothing. Otherwise one
   * completion request comes first, then one insert per event in order (when
   * the calendar client exists), then only task calls, one list request per
   * task.
   */
  lemma ProcessOrder(env: Env, calendar: bool, m: RawMessage, h: seq<Call>)
    ensures Extract(m, env.decode).Err? ==> ProcessTrace(env, calendar, m, h) == h
    ensures Extract(m, env.decode).Ok? ==>
              var c := Extract(m, env.decode).value;
              var analysis := AnalyzeTrace(env, c, h).1;
              var head := h + [CreateCompletion(RequestFor(c))] + (if calendar then EventInserts(analysis.events) else []);
              var r := ProcessTrace(env, calendar, m, h);
              |head| <= |r| && r[..|head|] == head &&
              (forall k :: |head| <= k < |r| ==> IsTaskCall(r[k])) &&
              |Select(r[|head|..], TaskListQuery)| == |analysis.tasks|
  {
    if Extract(m, env.decode).Ok? {
      var c := Extract(m, env.decode).value;
      var (asked, analysis) := AnalyzeTrace(env, c, h);
      EventsTraceIsOneInsertPerEvent(calendar, analysis.events, asked);
      TasksTraceShape(env, analysis.tasks, EventsTrace(calendar, analysis.events, asked));
    }
  }

  /**
   * A trace segment made of one call that is neither a mail call nor a task
   * call, then event inserts, then task calls only.
   */
  lemma SegmentOrder(r: seq<Call>, h: seq<Call>, first: Call, events: seq<Call>)
    requires !IsTaskCall(first) && !IsMailCall(first)
    requires forall k :: 0 <= k < |events| ==> events[k].InsertEvent?
    requires |h| + 1 + |events| <= |r| && r[..|h| + 1 + |events|] == h + [first] + events
    requires forall k :: |h| + 1 + |events| <= k < |r| ==> IsTaskCall(r[k])
    ensures r[..|h|] == h
    ensures forall k :: |h| <= k < |r| ==> !IsMailCall(r[k])
    ensures forall i, j :: |h| <= i < j < |r| && IsTaskCall(r[i]) ==> !r[j].InsertEvent?
  {
    var head := h + [first] + events;
    assert r[..|h|] == head[..|h|] == h;
    forall k | |h| <= k < |head| ensures r[k] == head[k] && !IsTaskCall(r[k]) && !IsMailCall(r[k]) {
      assert r[k] == r[..|head|][k];
      if k > |h| { assert head[k] == events[k - |h| - 1]; }
    }
  }

  /** The calls processing a message adds, when its content is extracted. */
  lemma ProcessSegment(env: Env, calendar: bool, m: RawMessage, h: seq<Call>)
    returns (first: Call, events: seq<Call>)
    requires Extract(m, env.decode).Ok?
    ensures !IsTaskCall(first) && !IsMailCall(first)
    ensures forall k :: 0 <= k < |events| ==> events[k].InsertEvent?
    ensures var r := ProcessTrace(env, calendar, m, h);
            |h| + 1 + |events| <= |r| && r[..|h| + 1 + |events|] == h + [first] + events &&
            forall k :: |h| + 1 + |events| <= k < |r| ==> IsTaskCall(r[k])
  {
    var c := Extract(m, env.decode).value;
    var (asked, analysis) := AnalyzeTrace(env, c, h);
    var mid := EventsTrace(calendar, analysis.events, asked);
    assert ProcessTrace(env, calendar, m, h) == TasksTrace(env, analysis.tasks, mid);
    first := CreateCompletion(RequestFor(c));
    events := if calendar then EventInserts(analysis.events) else [];
    EventsTraceIsOneInsertPerEvent(calendar, analysis.events, asked);
    EventInsertsLength(analysis.events);
    assert mid == h + [first] + events;
    TasksTraceShape(env, analysis.tasks, mid);
  }

  /** Within one message, every event insert comes before every task call. */
  lemma EventsBeforeTasks(env: Env, calendar: bool, m: RawMessage, h: seq<Call>)
    ensures var r := ProcessTrace(env, calendar, m, h);
            forall i, j :: |h| <= i < j < |r| && IsTaskCall(r[i]) ==> !r[j].InsertEvent?
  {
    if Extract(m, env.decode).Ok? {
      var first, events := ProcessSegment(env, calendar, m, h);
      SegmentOrder(ProcessTrace(env, calendar, m, h), h, first, events);
    } else {
      ProcessOrder(env, calendar, m, h);
    }
  }

  /** Processing a message issues no mail-service call. */
  lemma ProcessIssuesNoMailCall(env: Env, calendar: bool, m: RawMessage, h: seq<Call>)
    ensures var r := ProcessTrace(env, calendar, m, h);
            |h| <= |r| && r[..|h|] == h && forall k :: |h| <= k < |r| ==> !IsMailCall(r[k])
  {
    if Extract(m, env.decode).Ok? {
      var first, events := ProcessSegment(env, calendar, m, h);
      SegmentOrder(ProcessTrace(env, calendar, m, h), h, first, events);
    } else {
      ProcessOrder(env, calendar, m, h);
    }
  }

  /** The lookback bound is the floor of one hour before `now`, in seconds. */
  lemma LookbackIsFloor(now: int)
    requires -MaxTimeMs <= now - LookbackMs <= MaxTimeMs
    ensures LookbackSeconds(now).Some?
    ensures var b := LookbackSeconds(now).value;
            b * 1000 <= now - 3600000 < b * 1000 + 1000
  {
    var since := now - LookbackMs;
    assert since == (since / 1000) * 1000 + since % 1000;
  }

  /** The query names the lookback bound: the text after "after:" reads back as it. */
  lemma QueryNamesBound(now: int)
    ensures |LookbackQuery(now)| > 6 && LookbackQuery(now)[..6] == "after:"
    ensures ParseInt(LookbackQuery(now)[6..]) == LookbackSeconds(now)
  {
    var q := LookbackQuery(now);
    match LookbackSeconds(now)
    case Some(s) =>
      IntToStringRoundTrip(s);
      assert q[6..] == IntToString(s);
    case None =>
      assert q[6..] == "NaN";
      assert !IsDigit('N');
  }

  /**
   * A fetch, then calls that are not mail calls, then the rest `r[|p|..]`:
   * the fetched ids are this fetch's id followed by those of the rest.
   */
  lemma FetchStep(h: seq<Call>, id: string, p: seq<Call>, r: seq<Call>)
    requires |h| + 1 <= |p| <= |r| && r[..|p|] == p && p[..|h| + 1] == h + [GetMessage(Me, id)]
    requires forall k :: |h| + 1 <= k < |p| ==> !IsMailCall(p[k])
    ensures Select(r[|h|..], FetchedId) == [id] + Select(r[|p|..], FetchedId)
  {
    var between := p[|h| + 1..];
    assert r[|h|..] == [GetMessage(Me, id)] + between + r[|p|..];
    SelectAppend([GetMessage(Me, id)] + between, r[|p|..], FetchedId);
    SelectAppend([GetMessage(Me, id)], between, FetchedId);
    forall k | 0 <= k < |between| ensures FetchedId(between[k]).None? {
      assert between[k] == p[|h| + 1 + k];
    }
    SelectNone(between, FetchedId);
    assert Select([GetMessage(Me, id)], FetchedId) == [id];
  }

  /** A fetch followed by calls whose fetched ids are a prefix of `rest` fetches a prefix of `[id] + rest`. */
  lemma PrefixAfterFetch(h: seq<Call>, id: string, rest: seq<string>, p: seq<Call>, r: seq<Call>)
    requires |h| + 1 <= |p| <= |r| && r[..|p|] == p && p[..|h| + 1] == h + [GetMessage(Me, id)]
    requires forall k :: |h| + 1 <= k < |p| ==> !IsMailCall(p[k])
    requires var f := Select(r[|p|..], FetchedId); |f| <= |rest| && f == rest[..|f|]
    ensures r[..|h|] == h
    ensures var fetched := Select(r[|h|..], FetchedId);
            |fetched| <= 1 + |rest| && fetched == ([id] + rest)[..|fetched|]
  {
    FetchStep(h, id, p, r);
    assert r[..|h|] == p[..|h| + 1][..|h|];
  }

  /**
   * The fetched ids are a prefix of the listed ids, fetched in listed order:
   * a failed fetch skips the rest.
   */
  lemma {:induction false} FetchedPrefix(env: Env, calendar: bool, ids: seq<string>, h: seq<Call>)
    ensures |h| <= |FetchTrace(env, calendar, ids, h)|
    ensures var r := FetchTrace(env, calendar, ids, h);
            var fetched := Select(r[|h|..], FetchedId);
            r[..|h|] == h && |fetched| <= |ids| && fetched == ids[..|fetched|]
  {
    var r := FetchTrace(env, calendar, ids, h);
    if ids == [] {
      assert r[|h|..] == [];
    } else {
      var asked := h + [GetMessage(Me, ids[0])];
      if env.answer(asked).MessageData? {
        var m := env.answer(asked).message;
        var p := ProcessTrace(env, calendar, m, asked);
        assert r == FetchTrace(env, calendar, ids[1..], p);
        ProcessIssuesNoMailCall(env, calendar, m, asked);
        FetchedPrefix(env, calendar, ids[1..], p);
        assert p[..|h| + 1] == asked by {
          assert p[..|h| + 1] == p[..|asked|][..|h| + 1];
        }
        PrefixAfterFetch(h, ids[0], ids[1..], p, r);
        assert [ids[0]] + ids[1..] == ids;
      } else {
        assert r == asked;
        assert r[|h|..] == [GetMessage(Me, ids[0])];
        assert Select([GetMessage(Me, ids[0])], FetchedId) == [ids[0]];
      }
    }
  }

  /**
   * A failed fetch ends the cycle: when fewer ids were fetched than listed,
   * the last call is the fetch of the last fetched id and it failed, so the
   * remaining ids were skipped.
   */
  lemma {:induction false} FetchStopsAtFailure(env: Env, calendar: bool, ids: seq<string>, h: seq<Call>)
    ensures ids != [] && !env.answer(h + [GetMessage(Me, ids[0])]).MessageData? ==>
            FetchTrace(env, calendar, ids, h) == h + [GetMessage(Me, ids[0])]
    ensures |h| <= |FetchTrace(env, calendar, ids, h)|
    ensures var r := FetchTrace(env, calendar, ids, h);
            var n := |Select(r[|h|..], FetchedId)|;
            n < |ids| ==> 0 < n && r[|r| - 1] == GetMessage(Me, ids[n - 1]) && !env.answer(r).MessageData?
  {
    FetchedPrefix(env, calendar, ids, h);
    var r := FetchTrace(env, calendar, ids, h);
    if ids != [] {
      var asked := h + [GetMessage(Me, ids[0])];
      if env.answer(asked).MessageData? {
        var m := env.answer(asked).message;
        var p := ProcessTrace(env, calendar, m, asked);
        assert r == FetchTrace(env, calendar, ids[1..], p);
        ProcessIssuesNoMailCall(env, calendar, m, asked);
        FetchedPrefix(env, calendar, ids[1..], p);
        FetchStopsAtFailure(env, calendar, ids[1..], p);
        assert p[..|h| + 1] == asked by {
          assert p[..|h| + 1] == p[..|asked|][..|h| + 1];
        }
        FetchStep(h, ids[0], p, r);
      } else {
        assert r == asked;
        assert r[|h|..] == [GetMessage(Me, ids[0])];
        assert Select([GetMessage(Me, ids[0])], FetchedId) == [ids[0]];
      }
    }
  }

  /** When every fetch succeeds, every listed id is fetched, in listed order. */
  lemma {:induction false} AllFetched(env: Env, calendar: bool, ids: seq<string>, h: seq<Call>)
    requires FetchesSucceed(env)
    ensures var r := FetchTrace(env, calendar, ids, h);
            |h| <= |r| && Select(r[|h|..], FetchedId) == ids
  {
    FetchedPrefix(env, calendar, ids, h);
    var r := FetchTrace(env, calendar, ids, h);
    if ids == [] {
      assert r[|h|..] == [];
    } else {
      var asked := h + [GetMessage(Me, ids[0])];
      assert env.answer(asked).MessageData?;
      var m := env.answer(asked).message;
      var p := ProcessTrace(env, calendar, m, asked);
      assert r == FetchTrace(env, calendar, ids[1..], p);
      ProcessIssuesNoMailCall(env, calendar, m, asked);
      AllFetched(env, calendar, ids[1..], p);
      FetchedPrefix(env, calendar, ids[1..], p);
      assert p[..|h| + 1] == asked by {
        assert p[..|h| + 1] == p[..|asked|][..|h| + 1];
      }
      FetchStep(h, ids[0], p, r);
      assert [ids[0]] + ids[1..] == ids;
    }
  }

  /**
   * A cycle without a mail client issues nothing; otherwise it starts with
   * one listing of the last hour, at most ten messages, and ends right there
   * when the listing fails or is empty.
   */
  lemma CycleStart(env: Env, gmail: bool, calendar: bool, now: int, h: seq<Call>)
    ensures !gmail ==> CycleTrace(env, gmail, calendar, now, h) == h
    ensures gmail ==>
              var listed := h + [ListMessages(Me, LookbackQuery(now), MaxResults)];
              var r := CycleTrace(env, gmail, calendar, now, h);
              |listed| <= |r| && r[..|listed|] == listed &&
              (!(env.answer(listed).MessageIds? && |env.answer(listed).ids| > 0) ==> r == listed)
  {
    if gmail {
      var listed := h + [ListMessages(Me, LookbackQuery(now), MaxResults)];
      if env.answer(listed).MessageIds? {
        FetchedPrefix(env, calendar, env.answer(listed).ids, listed);
      }
    }
  }
}
