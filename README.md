# Email automation pipeline: a Dafny model

This project models the processing core of a personal email-automation
server. On a schedule, the server lists the mailbox's messages from the last
hour and fetches each one. For each message it:

1. extracts the subject, sender, date and plain-text body;
2. asks a language model, through a fixed prompt, for the events and tasks the email mentions;
3. creates one calendar event per event and one task per task.

The model covers the whole of that pipeline as it appears in `server.js`. That
includes the content extractor, the prompt and its failure fallback, the
calendar and task request bodies, and the order of the calls each step issues.

Every request to an outside service (mail, calendar, tasks, completion) is a
`Call` that is appended to an ordered trace. An environment `Env` answers each
call; its `answer` function sees the whole trace up to and including that call.
Any call may therefore fail or succeed, in any pattern. Everything is
deterministic once the environment is fixed. The runtime's base64 decoder and
JSON parser are also part of `Env`: a function `decode` and a partial function
`parse`.

Layout:

- `wrappers.dfy`: `Option` and `Result`.
- `content.dfy` (module `Content`): the message record and the content extractor. The function `Extract` is the specification. The method `ExtractEmailContent` is the extractor's loop, proved equal to it.
- `extraction.dfy` (module `Extraction`): the prompt template, the completion request, and how the reply is read (with the empty fallback).
- `payloads.dfy` (module `Payloads`): event and task drafts, and the calendar and task resources built from them.
- `numbers.dfy` (module `Numbers`): the decimal text of an integer, with a parser as its inverse.
- `services.dfy` (module `Services`): calls, replies, the environment, and projections of a trace.
- `pipeline.dfy` (module `Pipeline`): each step's calls as a function from the trace before to the trace after, with the properties of those functions.
- `server.dfy` (module `Server`): class `Automation`. It holds the module-level client state and the trace. Its methods mirror the source's functions and loops, and each is proved to issue exactly the calls its `Pipeline` function describes.
- `scenarios.dfy`: worked examples.

Two behaviours of the code are worth naming:

- `createCalendarEvent` and `createTask` each have their own error handler, so a failing create does not stop the loop: every later create is still attempted (`EventsTraceIsOneInsertPerEvent`).
- When the payload's own body has no data, a top-level `text/plain` part with no `body` object makes the extractor throw; nested parts are never read. `processEmail` swallows the error, and no call is issued for that message (`PlainTextFailsIffBodilessPart`, `ProcessOrder`).

## Model

| member | source | states |
|---|---|---|
| `Content.HeaderValue` | server.js:77-80 | The value is that of the first header whose name matches exactly (case-sensitive); it is "" when no header matches. |
| `Content.ExtractEmailContent` | server.js:76-95 | The loop over the parts returns exactly `Extract`: the three header lookups; the decoded top-level data when it is non-empty; otherwise the text parts accumulated in order, or the exception a bodiless `text/plain` part raises. |
| `Content.TopLevelBodyWins` | server.js:84-85 | Non-empty top-level body data is decoded alone, and replacing the parts leaves the result unchanged. |
| `Content.PlainTextIsJoinOfTextParts` | server.js:86-91 | When nothing throws, the body is the decoded data of the `text/plain` parts with non-empty data, concatenated in payload order. |
| `Content.PlainTextFailsIffBodilessPart` | server.js:88 | Accumulating the parts throws if and only if some top-level `text/plain` part has no body object. |
| `Content.PlainTextIgnoresNestedParts` | server.js:87-91 | Parts nested inside the top-level parts never affect the body. |
| `Content.NoTextPartsGiveEmptyBody` | server.js:82-92 | With no `text/plain` part the body is "" and nothing throws. |
| `Extraction.FillRoundTrip` | server.js:98-141 | For any template text, the four fields are read back verbatim from their slots in the filled template. |
| `Extraction.PromptRoundTrip` | server.js:98-141 | Subject, sender, date and body sit verbatim at fixed places between the analysis template's fixed pieces, and are read back from the prompt. |
| `Extraction.PromptDeterminesContent` | server.js:98-141 | Contents with equal-length subject, sender and date have the same prompt only if they are equal. |
| `Extraction.RequestFor` | server.js:144-157 | One request: model gpt-3.5-turbo, temperature 0.1, the fixed system instruction, then a user message. |
| `Extraction.RequestCarriesContent` | server.js:144-157 | The user message of the request is the prompt, and the subject, sender, date and body are read back from it. |
| `Extraction.Interpret` | server.js:159-164 | A failed request or an unparsable reply gives exactly no events and no tasks; a reply that parses gives exactly the parsed analysis. |
| `Payloads.EventResourceOf` | server.js:169-188 | Summary = title; description passed through; location, or "" when it is missing; both times in America/New_York; default reminders off; exactly the overrides email 1440 and popup 30. |
| `Payloads.LocalDateTime` | server.js:174-178 | For any date and time strings, the result is the date, then 'T', then the time, then ":00", with nothing else. |
| `Payloads.EventTimesShape` | server.js:173-180 | For every draft, whatever its strings hold, the start is the start date, 'T', the start time and ":00", and the end likewise. |
| `Payloads.EventTimesRoundTrip` | server.js:173-180 | For dates containing no 'T' (every ISO YYYY-MM-DD date), start and end are `date + "T" + time + ":00"`: splitting at the first 'T' and dropping ":00" gives the draft's date and time back. |
| `Payloads.TaskResourceOf` | server.js:210-214 | Title = title; notes = description; the due string starts with the due date and is 14 characters longer. |
| `Payloads.DueDateRoundTrip` | server.js:213 | The due string is the due date followed by "T23:59:59.000Z": stripping that suffix gives the date back. |
| `Numbers.IntToStringRoundTrip` | server.js:239 | The decimal text of the lookback bound parses back to the same integer. |
| `Pipeline.AnalyzeFallback` | server.js:143-164 | Analysis issues exactly one completion request; unless the reply is text that parses, the result is no events and no tasks. |
| `Pipeline.EventsTraceIsOneInsertPerEvent` | server.js:58-62 | With a calendar client the events add exactly one insert into "primary" per event, in order, whatever the replies; without one they add nothing. |
| `Pipeline.CreateTaskShape` | server.js:202-226 | One task creation is a task-list request; when the listing returns no list it ends there, and when it returns one it is followed by exactly one insert of the task's resource into the first list. |
| `Pipeline.TasksTraceShape` | server.js:64-68 | The tasks add only task calls: exactly one task-list request per task, and at most one insert per task. |
| `Pipeline.TasksGoToFirstList` | server.js:207-219 | Every task insert comes straight after a task-list request and goes to the first list that request returned. |
| `Pipeline.TasksAllInserted` | server.js:64-68 | When a list always exists, the inserted resources are exactly the tasks' resources, in order. |
| `Pipeline.TasksNoneInserted` | server.js:207-225 | When no list ever exists, each task issues one list request and no insert, and no error escapes. |
| `Pipeline.ProcessOrder` | server.js:50-74 | An unextractable message issues nothing. Otherwise the calls are one completion request, then the event inserts in order, then only task calls (one list request per task). |
| `Pipeline.EventsBeforeTasks` | server.js:58-68 | Within one message, no event insert follows a task call. |
| `Pipeline.ProcessIssuesNoMailCall` | server.js:50-74 | Processing a message only extends the trace and issues no mail-service call. |
| `Pipeline.LookbackIsFloor` | server.js:238-239 | Inside the date range, the bound b satisfies b·1000 ≤ now − 3600000 < b·1000 + 1000. |
| `Pipeline.QueryNamesBound` | server.js:239 | The query is "after:" followed by text that parses to the lookback bound ("NaN", which parses to nothing, outside the date range). |
| `Pipeline.CycleStart` | server.js:229-250 | Without a mail client a cycle issues nothing. Otherwise it starts with one listing (user "me", the lookback query, at most 10 results) and ends there when the listing fails or is empty. |
| `Pipeline.FetchedPrefix` | server.js:254-261 | The fetched ids are a prefix of the listed ids, in listed order, and the calls before the cycle are kept. |
| `Pipeline.FetchStopsAtFailure` | server.js:254-264 | A failed first fetch ends the cycle right after it; in general, when fewer ids were fetched than listed, the last call is the fetch of the last fetched id and its reply was a failure, so the remaining ids were skipped. |
| `Pipeline.AllFetched` | server.js:254-261 | When every fetch succeeds, every listed id is fetched exactly once, in listed order. |
| `Server.Automation.constructor` | server.js:24-26 | The client state is as initialisation left it, and no call has been issued. |
| `Server.Automation.CreateCalendarEvent` | server.js:167-200 | Issues exactly the calls of `CreateEventTrace`: one insert into "primary", or none without a calendar client. |
| `Server.Automation.CreateTask` | server.js:202-226 | Issues exactly the calls of `CreateTaskTrace`: a list request, then an insert into the first list when one exists. |
| `Server.Automation.AnalyzeEmailWithAI` | server.js:97-165 | Issues the one completion request and returns exactly the analysis `AnalyzeTrace` gives, the empty fallback included. |
| `Server.Automation.ProcessEmail` | server.js:50-74 | The two loops issue exactly the calls of `ProcessTrace`: the analysis, then each event, then each task. |
| `Server.Automation.CheckEmails` | server.js:228-265 | The guard, the listing and the fetch loop issue exactly the calls of `CycleTrace`, and stop at the first failed fetch. |

## Left out

- `auth-helper.js`: the interactive authorisation-code exchange. It has no logic beyond calls into the OAuth library.
- `initializeGoogleServices` (server.js:28-47): client construction is configuration. The `Automation` constructor takes the resulting presence of the mail and calendar clients as parameters.
- The web server: middleware, the dashboard, `/api/status` and `/api/process-manual` (server.js:13-16, 267-290). The manual route only calls `checkEmails`, which is modelled.
- Scheduling: the 15-minute cron job and the start-up timer (server.js:293-313), with the overlapping cycles they allow. `now` is a parameter.
- Console logging: every `catch` and progress log is an effect-free step here.
- The services themselves and the language model's answers. They are the abstract `Env.answer`. A reply of a shape other than the one the call expects is read as that call failing.
- The base64 decoder and `JSON.parse`: they are `Env.decode` and `Env.parse`. A parse is modelled as yielding an events-and-tasks record or nothing. Parsed JSON of other shapes is not modelled: `null`, non-array `events`/`tasks`, or drafts with missing fields (which JavaScript would render as "undefined").
- A message with no `payload` or no `headers` list, and a header with no `value`. The mail service always supplies these, so they are not represented.
- `RequestFor`: the temperature is the exact rational 0.1, not the binary floating-point value sent on the wire.
- `Pipeline.LookbackSeconds` takes integer floor division for `Math.floor(x / 1000)` on a double. The two agree on the whole date range, because |x / 1000| < 2^43 keeps the rounding error below 0.001.
- `Pipeline.CycleStart`: the listing's `maxResults` is recorded in the request, but a reply with more ids than that is not trimmed. The service is trusted to honour it.
- The values that `createCalendarEvent` and `createTask` return: `processEmail` discards them.
