/** The checks `labelSampleWithOpenAI` applies to a chat-completion response
    before it accepts a label: exactly one choice, from the assistant, with
    string content; an optional ```json fence stripped; the content parsed as
    JSON; a numeric label turned into a string; label and reason strings. */
module Response {
  import opened Wrappers
  import opened Strings
  import opened Decimal

  /** A JSON value. Numbers are integral here. */
  datatype Json =
    | JNull
    | JBool(b: bool)
    | JNumber(n: int)
    | JString(s: string)
    | JArray(items: seq<Json>)
    | JObject(members: map<string, Json>)

  /** `JSON.parse`: a value, or `None` when it throws a SyntaxError. */
  type Parser = string -> Option<Json>

  /** The message of a choice; `content` is `None` when it is not a string. */
  datatype Message = Message(role: string, content: Option<string>)

  /** The part of a chat completion that is checked. */
  datatype Completion = Completion(choices: seq<Message>)

  /** The accepted answer `{ label, reason }`. */
  datatype Reply = Reply(labelName: string, reason: string)

  /** Why the message content could not be turned into a reply: the exception
      caught by the inner `try`. */
  datatype ContentError =
    | SyntaxError      // JSON.parse threw
    | NullContent      // the content was `null`: reading `.label` throws a TypeError
    | LabelNotString   // 'label was not of type string'
    | ReasonNotString  // 'reason was not of type string'

  /** The errors thrown while checking a completion. */
  datatype ResponseError =
    | ChoiceCount(count: nat)                    // 'Expected choices to have 1 item'
    | NotAssistant(role: string)                 // 'Expected choices[0].message.role to equal "assistant"'
    | ContentNotString                           // 'Expected choices[0].message.content to be a string'
    | Unparsable(cause: ContentError, raw: string) // 'Failed to parse message content: ... (raw string: ...)'

  const FenceOpen: string := "```json"
  const FenceClose: string := "```"

  /** A body that starts with ```json and ends with ``` is at least ten
      characters long: the two markers cannot overlap. */
  lemma FenceLength(body: string)
    requires StartsWith(body, FenceOpen) && EndsWith(body, FenceClose)
    ensures |body| >= |FenceOpen| + |FenceClose|
  {
    assert body[6] == FenceOpen[6] == 'n';
    assert forall i :: |body| - 3 <= i < |body| ==> body[i] == FenceClose[i - (|body| - 3)] == '`';
  }

  /** `respBody.slice('```json'.length, respBody.length - 3)` when the body is
      fenced, the body itself otherwise. */
  function StripFence(body: string): (r: string)
    ensures StartsWith(body, FenceOpen) && EndsWith(body, FenceClose)
            ==> |r| == |body| - 10 && body == FenceOpen + r + FenceClose
    ensures !(StartsWith(body, FenceOpen) && EndsWith(body, FenceClose)) ==> r == body
  {
    if StartsWith(body, FenceOpen) && EndsWith(body, FenceClose) then
      FenceLength(body);
      var r := body[|FenceOpen|..|body| - |FenceClose|];
      assert body == body[..7] + r + body[|body| - 3..];
      r
    else body
  }

  /** Fencing a text and stripping the fence gives the text back. */
  lemma StripFenceRoundTrip(text: string)
    ensures StripFence(FenceOpen + text + FenceClose) == text
  {
    var body := FenceOpen + text + FenceClose;
    assert body[..|FenceOpen|] == FenceOpen;
    assert body[|body| - |FenceClose|..] == FenceClose;
  }

  /** The value of member `key` of a parsed value; `None` is `undefined`. */
  function Member(v: Json, key: string): (m: Option<Json>)
    ensures m.Some? <==> v.JObject? && key in v.members
  {
    if v.JObject? && key in v.members then Some(v.members[key]) else None
  }

  /** `if (typeof label === 'number') label = label.toString()`. */
  function NormaliseLabel(field: Option<Json>): (r: Option<Json>)
    ensures field.Some? && field.value.JNumber? ==> r == Some(JString(IntToString(field.value.n)))
    ensures !(field.Some? && field.value.JNumber?) ==> r == field
  {
    match field
    case Some(JNumber(n)) => Some(JString(IntToString(n)))
    case _ => field
  }

  /** The inner `try`: parse the (stripped) body and check the field types. */
  function ParseContent(body: string, parse: Parser): (r: Result<Reply, ContentError>)
    ensures parse(StripFence(body)).None? ==> r == Err(SyntaxError)
    ensures r.Ok? ==> var v := parse(StripFence(body));
              && v.Some? && v.value.JObject?
              && DenotesLabel(v.value.members, r.value.labelName)
              && "reason" in v.value.members && v.value.members["reason"] == JString(r.value.reason)
  {
    match parse(StripFence(body))
    case None => Err(SyntaxError)
    case Some(v) =>
      if v.JNull? then Err(NullContent)
      else
        var name := NormaliseLabel(Member(v, "label"));
        if !(name.Some? && name.value.JString?) then Err(LabelNotString)
        else
          var reason := Member(v, "reason");
          if !(reason.Some? && reason.value.JString?) then Err(ReasonNotString)
          else Ok(Reply(name.value.s, reason.value.s))
  }

  /** The checks on a completion and its content, in the order the source
      makes them. */
  function CheckCompletion(c: Completion, parse: Parser): (r: Result<Reply, ResponseError>)
    ensures |c.choices| != 1 ==> r == Err(ChoiceCount(|c.choices|))
    ensures |c.choices| == 1 && c.choices[0].role != "assistant" ==> r == Err(NotAssistant(c.choices[0].role))
    ensures |c.choices| == 1 && c.choices[0].role == "assistant" && c.choices[0].content.None? ==>
              r == Err(ContentNotString)
    ensures r.Ok? <==> && |c.choices| == 1
                       && c.choices[0].role == "assistant"
                       && c.choices[0].content.Some?
                       && ParseContent(c.choices[0].content.value, parse).Ok?
    ensures r.Ok? ==> r.value == ParseContent(c.choices[0].content.value, parse).value
    ensures && |c.choices| == 1
            && c.choices[0].role == "assistant"
            && c.choices[0].content.Some?
            && ParseContent(c.choices[0].content.value, parse).Err?
            ==> r == Err(Unparsable(ParseContent(c.choices[0].content.value, parse).error, c.choices[0].content.value))
    ensures r.Err? && r.error.Unparsable? ==>
              |c.choices| == 1 && c.choices[0].content == Some(r.error.raw)
              && ParseContent(r.error.raw, parse) == Err(r.error.cause)
  {
    if |c.choices| != 1 then Err(ChoiceCount(|c.choices|))
    else
      var m := c.choices[0];
      if m.role != "assistant" then Err(NotAssistant(m.role))
      else if m.content.None? then Err(ContentNotString)
      else
        match ParseContent(m.content.value, parse)
        case Err(cause) => Err(Unparsable(cause, m.content.value))
        case Ok(reply) => Ok(reply)
  }

  /** The label a parsed member denotes: a string as it is, a number in its
      decimal form. */
  ghost predicate DenotesLabel(m: map<string, Json>, l: string) {
    "label" in m && (m["label"] == JString(l) || (m["label"].JNumber? && l == IntToString(m["label"].n)))
  }

  /** A completion is accepted with reply (l, r) exactly when it has one
      choice, from the assistant, whose string content (fence stripped)
      parses to an object whose `label` is the string l or a number written
      l, and whose `reason` is the string r. */
  lemma AcceptedExactly(c: Completion, parse: Parser, l: string, r: string)
    ensures CheckCompletion(c, parse) == Ok(Reply(l, r))
            <==> && |c.choices| == 1
                 && c.choices[0].role == "assistant"
                 && c.choices[0].content.Some?
                 && parse(StripFence(c.choices[0].content.value)).Some?
                 && var v := parse(StripFence(c.choices[0].content.value)).value;
                    && v.JObject?
                    && DenotesLabel(v.members, l)
                    && "reason" in v.members && v.members["reason"] == JString(r)
  {
  }

  /** A label that is neither a string nor a number, or a missing one, makes
      the content unparsable, whatever the reason says; the error keeps the
      raw content, before the fence was stripped. */
  lemma NonStringLabelRejected(c: Completion, parse: Parser)
    requires |c.choices| == 1 && c.choices[0].role == "assistant" && c.choices[0].content.Some?
    requires var v := parse(StripFence(c.choices[0].content.value));
             && v.Some? && v.value.JObject?
             && !("label" in v.value.members && (v.value.members["label"].JString? || v.value.members["label"].JNumber?))
    ensures CheckCompletion(c, parse) == Err(Unparsable(LabelNotString, c.choices[0].content.value))
  {
  }

  /** A label that is accepted but a reason that is missing or not a string
      makes the content unparsable; the error keeps the raw content. */
  lemma NonStringReasonRejected(c: Completion, parse: Parser)
    requires |c.choices| == 1 && c.choices[0].role == "assistant" && c.choices[0].content.Some?
    requires var v := parse(StripFence(c.choices[0].content.value));
             && v.Some? && v.value.JObject?
             && "label" in v.value.members && (v.value.members["label"].JString? || v.value.members["label"].JNumber?)
             && !("reason" in v.value.members && v.value.members["reason"].JString?)
    ensures CheckCompletion(c, parse) == Err(Unparsable(ReasonNotString, c.choices[0].content.value))
  {
  }

  /** Content that does not parse, or parses to `null`, is unparsable; the
      error keeps the raw content. */
  lemma MalformedContentRejected(c: Completion, parse: Parser)
    requires |c.choices| == 1 && c.choices[0].role == "assistant" && c.choices[0].content.Some?
    requires var v := parse(StripFence(c.choices[0].content.value));
             v.None? || v.value.JNull?
    ensures var raw := c.choices[0].content.value;
            CheckCompletion(c, parse) == Err(Unparsable(if parse(StripFence(raw)).None? then SyntaxError else NullContent, raw))
  {
  }

  /** A numeric label is accepted as its decimal string. */
  lemma NumericLabelBecomesString(c: Completion, parse: Parser, n: int, reason: string)
    requires |c.choices| == 1 && c.choices[0].role == "assistant" && c.choices[0].content.Some?
    requires parse(StripFence(c.choices[0].content.value))
             == Some(JObject(map["label" := JNumber(n), "reason" := JString(reason)]))
    ensures CheckCompletion(c, parse) == Ok(Reply(IntToString(n), reason))
  {
  }
}
