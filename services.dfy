/**
 * The external services as effects. Every request to the mail, calendar,
 * task or completion service is a `Call` appended to an ordered trace; the
 * environment answers each call, and may answer any call with a failure.
 */
module Services {
  import opened Wrappers
  import opened Content
  import opened Payloads
  import opened Extraction

  /** The mailbox owner, as the mail service names the authenticated account. */
  const Me: string := "me"

  /** The largest number of messages one listing asks for. */
  const MaxResults: nat := 10

  datatype Call =
    | ListMessages(userId: string, query: string, maxResults: nat)
    | GetMessage(userId: string, id: string)
    | CreateCompletion(request: CompletionRequest)
    | InsertEvent(calendarId: string, event: EventResource)
    | ListTaskLists
    | InsertTask(tasklist: string, task: TaskResource)

  /**
   * A service's answer. A reply of a different shape from the one the call
   * expects (a message listing answered by `Created`, say) is read as that
   * call failing.
   */
  datatype Reply =
    | Failed
    | MessageIds(ids: seq<string>)      // listing; no `messages` field is []
    | MessageData(message: RawMessage)
    | CompletionText(content: string)   // the first choice's message text
    | TaskListIds(ids: seq<string>)     // no `items` field is []
    | Created

  /**
   * The world outside the program. `answer` gives the reply to the last call
   * of the trace it is given, so replies may depend on everything asked so far;
   * `decode` and `parse` are the runtime's base64 decoder and JSON parser.
   */
  datatype Env = Env(answer: seq<Call> -> Reply, decode: Decoder, parse: Parser)

  predicate IsTaskCall(c: Call) {
    c.ListTaskLists? || c.InsertTask?
  }

  /** The values `pick` finds in the calls, in trace order. */
  function Select<T>(calls: seq<Call>, pick: Call -> Option<T>): seq<T> {
    if calls == [] then []
    else (if pick(calls[0]).Some? then [pick(calls[0]).value] else []) + Select(calls[1..], pick)
  }

  lemma {:induction false} SelectAppend<T>(a: seq<Call>, b: seq<Call>, pick: Call -> Option<T>)
    ensures Select(a + b, pick) == Select(a, pick) + Select(b, pick)
  {
    if a == [] {
      assert a + b == b;
    } else {
      var head := if pick(a[0]).Some? then [pick(a[0]).value] else [];
      assert (a + b)[0] == a[0] && (a + b)[1..] == a[1..] + b;
      assert Select(a + b, pick) == head + Select(a[1..] + b, pick);
      SelectAppend(a[1..], b, pick);
      assert head + (Select(a[1..], pick) + Select(b, pick)) == (head + Select(a[1..], pick)) + Select(b, pick);
    }
  }

  /** Calls of which `pick` finds nothing select nothing. */
  lemma {:induction false} SelectNone<T>(calls: seq<Call>, pick: Call -> Option<T>)
    requires forall k :: 0 <= k < |calls| ==> pick(calls[k]).None?
    ensures Select(calls, pick) == []
  {
    if calls != [] {
      assert pick(calls[0]).None?;
      SelectNone(calls[1..], pick);
    }
  }

  function InsertedEvent(c: Call): Option<EventResource> {
    if c.InsertEvent? then Some(c.event) else None
  }

  function InsertedTask(c: Call): Option<TaskResource> {
    if c.InsertTask? then Some(c.task) else None
  }

  function TaskListQuery(c: Call): Option<Call> {
    if c.ListTaskLists? then Some(c) else None
  }

  function FetchedId(c: Call): Option<string> {
    if c.GetMessage? then Some(c.id) else None
  }
}
