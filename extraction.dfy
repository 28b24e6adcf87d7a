/**
 * The structured extraction client: the fixed prompt built from an email's
 * content, the completion request that carries it, and how the reply becomes
 * a list of events and tasks.
 */
module Extraction {
  import opened Wrappers
  import opened Content
  import opened Payloads

  /** The template text before the subject. */
  const Intro: string := @"
Analyze this email and extract any calendar events and tasks. Respond with a JSON object.

Email Subject: "

  const FromLabel: string := "\nFrom: "
  const DateLabel: string := "\nDate: "
  const BodyLabel: string := "\nBody: "

  /** The template text after the body: the extraction instructions and the reply format. */
  const Instructions: string := @"

Please extract:
1. Events: meetings, appointments, social events, school events, etc.
2. Tasks: things that need to be done, assignments, deadlines, etc.

For events, include: title, description, start_date, start_time, end_date, end_time, location
For tasks, include: title, description, due_date, priority

Use ISO date format (YYYY-MM-DD) and 24-hour time format (HH:MM).
If specific times aren't mentioned, use reasonable defaults.
If dates are relative (like ""next Friday""), calculate the actual date.

Return JSON in this format:
{
  ""events"": [
    {
      ""title"": ""Event Title"",
      ""description"": ""Event Description"",
      ""start_date"": ""2024-01-15"",
      ""start_time"": ""15:00"",
      ""end_date"": ""2024-01-15"", 
      ""end_time"": ""16:00"",
      ""location"": ""Location if mentioned""
    }
  ],
  ""tasks"": [
    {
      ""title"": ""Task Title"",
      ""description"": ""Task Description"", 
      ""due_date"": ""2024-01-20"",
      ""priority"": ""medium""
    }
  ]
}

If no events or tasks are found, return empty arrays.
"

  /** The model and sampling temperature of every completion request. */
  const Model: string := "gpt-3.5-turbo"
  const Temperature: real := 0.1

  /** The system instruction that asks for JSON only. */
  const SystemInstruction: string :=
    "You are an expert at extracting calendar events and tasks from emails. Always respond with valid JSON only."

  datatype ChatMessage = ChatMessage(role: string, content: string)

  datatype CompletionRequest = CompletionRequest(model: string, messages: seq<ChatMessage>, temperature: real)

  /** What the reply is expected to parse to; a missing list is written []. */
  datatype Analysis = Analysis(events: seq<EventDraft>, tasks: seq<TaskDraft>)

  /** The result used whenever the request or the parse fails. */
  const NoFindings: Analysis := Analysis([], [])

  /** The JSON parser of the runtime, read as a partial function to an analysis. */
  type Parser = string -> Option<Analysis>

  /**
   * A prompt template: fixed text around the four slots for subject, sender,
   * date and body, in that order.
   */
  datatype Template = Template(intro: string, fromLabel: string, dateLabel: string, bodyLabel: string, outro: string)

  /** The analysis prompt's template. */
  const AnalysisTemplate: Template := Template(Intro, FromLabel, DateLabel, BodyLabel, Instructions)

  /** A template with the content's fields inserted verbatim. */
  function Fill(t: Template, c: EmailContent): string {
    t.intro + (c.subject + (t.fromLabel + (c.from + (t.dateLabel + (c.date + (t.bodyLabel + (c.body + t.outro)))))))
  }

  /** The prompt for an email's content. */
  function PromptFor(c: EmailContent): string {
    Fill(AnalysisTemplate, c)
  }

  /** The one completion request sent for an email. */
  function RequestFor(c: EmailContent): (r: CompletionRequest)
    ensures r.model == Model && r.temperature == Temperature
    ensures |r.messages| == 2
    ensures r.messages[0] == ChatMessage("system", SystemInstruction)
    ensures r.messages[1].role == "user"
  {
    CompletionRequest(Model, [ChatMessage("system", SystemInstruction), ChatMessage("user", PromptFor(c))], Temperature)
  }

  /**
   * The analysis for the reply's text (`None` when the request failed): the
   * parsed value, or no findings when there is no text or it does not parse.
   */
  function Interpret(reply: Option<string>, parse: Parser): (a: Analysis)
    ensures reply.None? ==> a == NoFindings
    ensures reply.Some? && parse(reply.value).None? ==> a == NoFindings
    ensures reply.Some? && parse(reply.value).Some? ==> a == parse(reply.value).value
    ensures a != NoFindings ==> reply.Some? && parse(reply.value) == Some(a)
  {
    match reply
    case None => NoFindings
    case Some(text) => parse(text).GetOr(NoFindings)
  }

  // ----- reading the fields back out of a prompt -----

  /** The rest of `s` after the fixed text `lit`, if `s` starts with it. */
  function After(lit: string, s: string): Option<string> {
    if lit <= s then Some(s[|lit|..]) else None
  }

  /**
   * The content whose prompt under template `t` is `p`, given the lengths of the
   * subject, sender and date; `None` when the fixed text is not where it belongs.
   */
  function Slots(t: Template, p: string, subjectLength: nat, fromLength: nat, dateLength: nat): Option<EmailContent> {
    match After(t.intro, p)
    case None => None
    case Some(r1) =>
      if |r1| < subjectLength then None else
      match After(t.fromLabel, r1[subjectLength..])
      case None => None
      case Some(r2) =>
        if |r2| < fromLength then None else
        match After(t.dateLabel, r2[fromLength..])
        case None => None
        case Some(r3) =>
          if |r3| < dateLength then None else
          match After(t.bodyLabel, r3[dateLength..])
          case None => None
          case Some(r4) =>
            if |r4| >= |t.outro| && r4[|r4| - |t.outro|..] == t.outro then
              Some(EmailContent(r1[..subjectLength], r2[..fromLength], r3[..dateLength], r4[..|r4| - |t.outro|]))
            else None
  }

  /** The analysis prompt read back into its content. */
  function SlotsOf(p: string, subjectLength: nat, fromLength: nat, dateLength: nat): Option<EmailContent> {
    Slots(AnalysisTemplate, p, subjectLength, fromLength, dateLength)
  }

  lemma AfterPrefix(lit: string, rest: string)
    ensures After(lit, lit + rest) == Some(rest)
  {
    assert (lit + rest)[..|lit|] == lit;
    assert (lit + rest)[|lit|..] == rest;
  }

  lemma SplitAt(x: string, rest: string)
    ensures (x + rest)[..|x|] == x && (x + rest)[|x|..] == rest
  {
  }

  /** Whatever the template's text, each field is read back from its slot. */
  lemma {:induction false} FillRoundTrip(t: Template, c: EmailContent)
    ensures Slots(t, Fill(t, c), |c.subject|, |c.from|, |c.date|) == Some(c)
  {
    var r4 := c.body + t.outro;
    var r3 := c.date + (t.bodyLabel + r4);
    var r2 := c.from + (t.dateLabel + r3);
    var r1 := c.subject + (t.fromLabel + r2);
    AfterPrefix(t.intro, r1);
    SplitAt(c.subject, t.fromLabel + r2);
    AfterPrefix(t.fromLabel, r2);
    SplitAt(c.from, t.dateLabel + r3);
    AfterPrefix(t.dateLabel, r3);
    SplitAt(c.date, t.bodyLabel + r4);
    AfterPrefix(t.bodyLabel, r4);
    assert r4[|r4| - |t.outro|..] == t.outro && r4[..|r4| - |t.outro|] == c.body;
  }

  /**
   * Each field sits verbatim in its slot, between the template's fixed
   * pieces, so the content is read back from the prompt.
   */
  lemma PromptRoundTrip(c: EmailContent)
    ensures SlotsOf(PromptFor(c), |c.subject|, |c.from|, |c.date|) == Some(c)
  {
    FillRoundTrip(AnalysisTemplate, c);
  }

  /** The request's user message is the prompt, from which the content is read back. */
  lemma RequestCarriesContent(c: EmailContent)
    ensures SlotsOf(RequestFor(c).messages[1].content, |c.subject|, |c.from|, |c.date|) == Some(c)
  {
    PromptRoundTrip(c);
  }

  /** Two contents whose subject, sender and date have the same lengths share a prompt only if they are equal. */
  lemma PromptDeterminesContent(c: EmailContent, d: EmailContent)
    requires |c.subject| == |d.subject| && |c.from| == |d.from| && |c.date| == |d.date|
    requires PromptFor(c) == PromptFor(d)
    ensures c == d
  {
    PromptRoundTrip(c);
    PromptRoundTrip(d);
  }
}
