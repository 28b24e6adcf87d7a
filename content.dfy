/**
 * The content extractor: turns a mail provider's message record into the
 * subject, sender, date and plain-text body that are shown to the language model.
 */
module Content {
  import opened Wrappers

  /** One `name: value` header line of a message. */
  datatype Header = Header(name: string, value: string)

  /**
   * A part body. `data` is the base64url text of the content; an absent
   * `data` field is written "" (both are falsy, and the extractor treats them alike).
   */
  datatype Body = Body(data: string)

  /** A MIME part. `body` is `None` when the part carries no body object. */
  datatype Part = Part(mimeType: string, body: Option<Body>, parts: seq<Part>)

  /** The message payload; an absent `parts` list is written []. */
  datatype Payload = Payload(headers: seq<Header>, body: Option<Body>, parts: seq<Part>)

  datatype RawMessage = RawMessage(id: string, payload: Payload)

  datatype EmailContent = EmailContent(subject: string, from: string, date: string, body: string)

  /** The base64 decoder of the runtime's byte buffers; its internals are not modelled. */
  type Decoder = string -> string

  /** The exception raised when a `text/plain` part has no body object to read `data` from. */
  const MissingBodyError: string := "TypeError: Cannot read properties of undefined (reading 'data')"

  /**
   * The value of the first header called exactly `name` (case-sensitive), or ""
   * when there is none.
   */
  function HeaderValue(headers: seq<Header>, name: string): (v: string)
    ensures (forall i :: 0 <= i < |headers| ==> headers[i].name != name) ==> v == ""
    ensures forall i :: (0 <= i < |headers| && headers[i].name == name &&
                         (forall j :: 0 <= j < i ==> headers[j].name != name)) ==> v == headers[i].value
  {
    if headers == [] then ""
    else if headers[0].name == name then headers[0].value
    else HeaderValue(headers[1..], name)
  }

  /** Whether reading this part's body data throws: a `text/plain` part with no body object. */
  predicate Throws(p: Part) {
    p.mimeType == "text/plain" && p.body.None?
  }

  /** Whether a part adds text to the body: `text/plain` with non-empty data. */
  predicate IsPlainText(p: Part) {
    p.mimeType == "text/plain" && p.body.Some? && p.body.value.data != ""
  }

  /** The text one top-level part adds to the body. */
  function PartText(p: Part, decode: Decoder): string {
    if IsPlainText(p) then decode(p.body.value.data) else ""
  }

  /** `Ok(prefix + text)` for `Ok(text)`; an error is passed on unchanged. */
  function Prepend(prefix: string, r: Result<string>): Result<string> {
    match r
    case Ok(text) => Ok(prefix + text)
    case Err(e) => Err(e)
  }

  lemma PrependTwice(prefix: string, text: string, r: Result<string>)
    ensures Prepend(prefix, Prepend(text, r)) == Prepend(prefix + text, r)
  {
    if r.Ok? {
      assert prefix + (text + r.value) == (prefix + text) + r.value;
    }
  }

  lemma PrependNothing(r: Result<string>)
    ensures Prepend("", r) == r
  {
    if r.Ok? {
      assert "" + r.value == r.value;
    }
  }

  /** The body assembled from the top-level parts, in order; only their own bodies are read. */
  function PlainText(parts: seq<Part>, decode: Decoder): Result<string> {
    if parts == [] then Ok("")
    else if Throws(parts[0]) then Err(MissingBodyError)
    else Prepend(PartText(parts[0], decode), PlainText(parts[1..], decode))
  }

  /** The content the extractor returns for a message, or the exception it raises. */
  function Extract(m: RawMessage, decode: Decoder): Result<EmailContent> {
    var headers := m.payload.headers;
    var subject := HeaderValue(headers, "Subject");
    var from := HeaderValue(headers, "From");
    var date := HeaderValue(headers, "Date");
    if m.payload.body.Some? && m.payload.body.value.data != "" then
      Ok(EmailContent(subject, from, date, decode(m.payload.body.value.data)))
    else
      match PlainText(m.payload.parts, decode)
      case Ok(body) => Ok(EmailContent(subject, from, date, body))
      case Err(e) => Err(e)
  }

  /** The extractor itself: header lookups, then the body accumulated part by part. */
  method ExtractEmailContent(m: RawMessage, decode: Decoder) returns (r: Result<EmailContent>)
    ensures r == Extract(m, decode)
  {
    var headers := m.payload.headers;
    var subject := HeaderValue(headers, "Subject");
    var from := HeaderValue(headers, "From");
    var date := HeaderValue(headers, "Date");
    var body := "";
    if m.payload.body.Some? && m.payload.body.value.data != "" {
      body := decode(m.payload.body.value.data);
    } else {
      var parts := m.payload.parts;
      var i := 0;
      assert parts[0..] == parts;
      PrependNothing(PlainText(parts, decode));
      while i < |parts|
        invariant 0 <= i <= |parts|
        invariant PlainText(parts, decode) == Prepend(body, PlainText(parts[i..], decode))
      {
        var part := parts[i];
        assert parts[i..][0] == part && parts[i..][1..] == parts[i + 1..];
        if part.mimeType == "text/plain" && part.body.None? {
          return Err(MissingBodyError);
        }
        assert PlainText(parts[i..], decode) == Prepend(PartText(part, decode), PlainText(parts[i + 1..], decode));
        PrependTwice(body, PartText(part, decode), PlainText(parts[i + 1..], decode));
        if part.mimeType == "text/plain" && part.body.value.data != "" {
          body := body + decode(part.body.value.data);
        } else {
          assert body + PartText(part, decode) == body;
        }
        i := i + 1;
      }
      assert parts[i..] == [] && body + "" == body;
    }
    r := Ok(EmailContent(subject, from, date, body));
  }

  // ----- a reference definition of the body: filter, decode, join -----

  /** The data of the top-level parts that contribute text, in payload order. */
  function PlainTextData(parts: seq<Part>): (ds: seq<string>)
    ensures forall k :: 0 <= k < |ds| ==>
              ds[k] != "" && exists j :: 0 <= j < |parts| && IsPlainText(parts[j]) && parts[j].body.value.data == ds[k]
  {
    if parts == [] then []
    else (if IsPlainText(parts[0]) then [parts[0].body.value.data] else []) + PlainTextData(parts[1..])
  }

  /** The concatenation of the decoded strings, in order. */
  function DecodeAll(ds: seq<string>, decode: Decoder): string {
    if ds == [] then "" else decode(ds[0]) + DecodeAll(ds[1..], decode)
  }

  lemma {:induction false} DecodeAllAppend(a: seq<string>, b: seq<string>, decode: Decoder)
    ensures DecodeAll(a + b, decode) == DecodeAll(a, decode) + DecodeAll(b, decode)
  {
    if a != [] {
      assert (a + b)[0] == a[0] && (a + b)[1..] == a[1..] + b;
      DecodeAllAppend(a[1..], b, decode);
      var x, y, z := decode(a[0]), DecodeAll(a[1..], decode), DecodeAll(b, decode);
      assert x + (y + z) == (x + y) + z;
    } else {
      assert a + b == b;
    }
  }

  /**
   * Extraction throws exactly when the payload has no usable top-level data
   * and some top-level part is `text/plain` without a body object.
   */
  lemma {:induction false} PlainTextFailsIffBodilessPart(parts: seq<Part>, decode: Decoder)
    ensures PlainText(parts, decode).Err? <==> exists i :: 0 <= i < |parts| && Throws(parts[i])
  {
    if parts != [] {
      PlainTextFailsIffBodilessPart(parts[1..], decode);
      if exists i :: 0 <= i < |parts[1..]| && Throws(parts[1..][i]) {
        var i :| 0 <= i < |parts[1..]| && Throws(parts[1..][i]);
        assert Throws(parts[i + 1]);
      }
      if exists i :: 0 <= i < |parts| && Throws(parts[i]) {
        var i :| 0 <= i < |parts| && Throws(parts[i]);
        if i > 0 { assert Throws(parts[1..][i - 1]); }
      }
    }
  }

  /**
   * When no part throws, the body is the decoded data of the `text/plain`
   * parts with non-empty data, joined in payload order; other parts add nothing.
   */
  lemma {:induction false} PlainTextIsJoinOfTextParts(parts: seq<Part>, decode: Decoder)
    requires forall i :: 0 <= i < |parts| ==> !Throws(parts[i])
    ensures PlainText(parts, decode) == Ok(DecodeAll(PlainTextData(parts), decode))
  {
    if parts != [] {
      assert !Throws(parts[0]);
      PlainTextIsJoinOfTextParts(parts[1..], decode);
      var head := if IsPlainText(parts[0]) then [parts[0].body.value.data] else [];
      DecodeAllAppend(head, PlainTextData(parts[1..]), decode);
    }
  }

  /** Parts nested inside top-level parts never reach the body. */
  lemma {:induction false} PlainTextIgnoresNestedParts(parts: seq<Part>, others: seq<Part>, decode: Decoder)
    requires |others| == |parts|
    requires forall i :: 0 <= i < |parts| ==>
               others[i].mimeType == parts[i].mimeType && others[i].body == parts[i].body
    ensures PlainText(others, decode) == PlainText(parts, decode)
  {
    if parts != [] {
      PlainTextIgnoresNestedParts(parts[1..], others[1..], decode);
    }
  }

  /** With no part of type `text/plain` the body is empty and nothing throws. */
  lemma {:induction false} NoTextPartsGiveEmptyBody(parts: seq<Part>, decode: Decoder)
    requires forall i :: 0 <= i < |parts| ==> parts[i].mimeType != "text/plain"
    ensures PlainText(parts, decode) == Ok("")
  {
    if parts != [] {
      NoTextPartsGiveEmptyBody(parts[1..], decode);
    }
  }

  /**
   * Non-empty top-level body data is decoded alone: the parts are never
   * looked at, so replacing them changes nothing.
   */
  lemma TopLevelBodyWins(m: RawMessage, parts: seq<Part>, decode: Decoder)
    requires m.payload.body.Some? && m.payload.body.value.data != ""
    ensures Extract(m, decode).Ok?
    ensures Extract(m, decode).value.body == decode(m.payload.body.value.data)
    ensures Extract(m.(payload := m.payload.(parts := parts)), decode) == Extract(m, decode)
  {
  }
}
