/**
 * What the response handling as a whole promises: which error each kind of
 * reply raises, that only the first choice is read, and the replies the
 * system prompt asks for.
 */
module ResponseProperties {
  import opened Wrappers
  import opened Json
  import opened PyStr
  import opened Extraction
  import opened ExtractionProperties

  /** A decoded reply body `{"choices": [{"message": {"content": content}}]}`. */
  function ReplyWith(content: string): (reply: Value) {
    JObject(map["choices" := JArray([JObject(map["message" := JObject(map["content" := JString(content)])])])])
  }

  /** Each outcome of the extraction and the stage that decides it. */
  lemma ExtractDagOutcome(content: string, loads: string -> Option<Value>)
    ensures ExtractDag(content, loads) == Failure(NoJsonBlock) <==> !Contains(content, OPEN_FENCE)
    ensures ExtractJsonBlock(content).Some? ==>
      var parsed := loads(ExtractJsonBlock(content).value);
      && (ExtractDag(content, loads) == Failure(InvalidJson) <==> parsed.None?)
      && (parsed.Some? ==> ExtractDag(content, loads) == ReadDag(parsed.value))
  {
    NoOpenFenceFails(content);
  }

  /** `Missing 'dag' key` is raised exactly when the parsed object lacks a truthy `dag`;
      otherwise the value is handed back unchanged as `dag_code`. */
  lemma DagLookup(content: string, loads: string -> Option<Value>, fields: map<string, Value>)
    requires ExtractJsonBlock(content).Some?
    requires loads(ExtractJsonBlock(content).value) == Some(JObject(fields))
    ensures ExtractDag(content, loads) == Failure(MissingDag) <==> "dag" !in fields || !Truthy(fields["dag"])
    ensures "dag" in fields && Truthy(fields["dag"]) ==>
      ExtractDag(content, loads) == Success(map["dag_code" := fields["dag"]])
  {
    ExtractDagOutcome(content, loads);
  }

  /** `No valid choices` is raised for a dict reply exactly when `choices` is absent or empty. */
  lemma NoValidChoicesIff(fields: map<string, Value>, loads: string -> Option<Value>)
    ensures GenerateDagCode(JObject(fields), loads) == Failure(NoValidChoices)
      <==> "choices" !in fields || Len(fields["choices"]) == Success(0)
  {
    match FirstChoiceContent(JObject(fields))
    case Success(content) =>
      assert GenerateDagCode(JObject(fields), loads) == ExtractDag(content, loads);
    case Failure(_) =>
  }

  /** A reply whose first choice carries text is handled as that text alone. */
  lemma FirstChoiceIsRead(fields: map<string, Value>, loads: string -> Option<Value>,
                           choice: map<string, Value>, message: map<string, Value>, content: string)
    requires "choices" in fields && fields["choices"].JArray?
    requires |fields["choices"].items| > 0 && fields["choices"].items[0] == JObject(choice)
    requires "message" in choice && choice["message"] == JObject(message)
    requires "content" in message && message["content"] == JString(content)
    ensures FirstChoiceContent(JObject(fields)) == Success(content)
    ensures GenerateDagCode(JObject(fields), loads) == ExtractDag(content, loads)
  {
  }

  /** Only `choices[0]` is consulted: replies that agree on it are handled alike. */
  lemma OnlyFirstChoiceConsulted(f1: map<string, Value>, f2: map<string, Value>, loads: string -> Option<Value>)
    requires "choices" in f1 && f1["choices"].JArray? && |f1["choices"].items| > 0
    requires "choices" in f2 && f2["choices"].JArray? && |f2["choices"].items| > 0
    requires f1["choices"].items[0] == f2["choices"].items[0]
    ensures FirstChoiceContent(JObject(f1)) == FirstChoiceContent(JObject(f2))
    ensures GenerateDagCode(JObject(f1), loads) == GenerateDagCode(JObject(f2), loads)
  {
    var choice := f1["choices"].items[0];
    assert FirstChoiceContent(JObject(f1)) == FirstChoiceContent(JObject(map["choices" := JArray([choice])]));
    assert FirstChoiceContent(JObject(f2)) == FirstChoiceContent(JObject(map["choices" := JArray([choice])]));
  }

  /** A reply body that is not a dict never yields code. A list without the element `"choices"`
      and a str without the substring `choices` fail the `in` test. Any other list or str is
      then subscripted with a str key, which raises TypeError, as `in` on None, a bool or a number does. */
  lemma NonObjectReplyFails(response: Value, loads: string -> Option<Value>)
    requires !response.JObject?
    ensures GenerateDagCode(response, loads) == Failure(NoValidChoices)
      <==> || (response.JArray? && JString("choices") !in response.items)
           || (response.JString? && !Contains(response.s, "choices"))
    ensures GenerateDagCode(response, loads) != Failure(NoValidChoices)
      ==> GenerateDagCode(response, loads) == Failure(Raised(TypeError))
  {
    assert !IsWellFormedReply(response);
  }

  /** The reply body `ReplyWith(content)` is handled as `content` alone. */
  lemma ReplyWithIsRead(content: string, loads: string -> Option<Value>)
    ensures GenerateDagCode(ReplyWith(content), loads) == ExtractDag(content, loads)
  {
    var message := map["content" := JString(content)];
    var choice := map["message" := JObject(message)];
    FirstChoiceIsRead(ReplyWith(content).fields, loads, choice, message, content);
  }

  /** The reply of the format the system prompt requests yields the code it carries. */
  lemma RequestedFormatYieldsCode(x: string, code: Value, loads: string -> Option<Value>)
    requires loads(DagObjectText(x)) == Some(JObject(map["dag" := code]))
    requires Truthy(code)
    ensures GenerateDagCode(ReplyWith(OPEN_FENCE + DagObjectText(x) + CLOSE_FENCE), loads)
      == Success(map["dag_code" := code])
  {
    var reply := OPEN_FENCE + DagObjectText(x) + CLOSE_FENCE;
    ReplyWithIsRead(reply, loads);
    PromptFormatReply(x);
    DagLookup(reply, loads, map["dag" := code]);
  }

  /** The reply ```json{"dag": "print(1)"}``` yields the code `print(1)`. */
  lemma PrintOneReply(loads: string -> Option<Value>)
    requires loads(DagObjectText("\"print(1)\"")) == Some(JObject(map["dag" := JString("print(1)")]))
    ensures GenerateDagCode(ReplyWith(OPEN_FENCE + DagObjectText("\"print(1)\"") + CLOSE_FENCE), loads)
      == Success(map["dag_code" := JString("print(1)")])
  {
    RequestedFormatYieldsCode("\"print(1)\"", JString("print(1)"), loads);
  }

  /** An extracted block `{"not_dag": "x"}` raises `Missing 'dag' key`. */
  lemma NotDagReplyFails(loads: string -> Option<Value>)
    requires loads("{\"not_dag\": \"x\"}") == Some(JObject(map["not_dag" := JString("x")]))
    ensures GenerateDagCode(ReplyWith(OPEN_FENCE + "{\"not_dag\": \"x\"}" + CLOSE_FENCE), loads)
      == Failure(MissingDag)
  {
    var body := "{\"not_dag\": \"x\"}";
    var reply := OPEN_FENCE + body + CLOSE_FENCE;
    assert body[0] == '{' && body[|body| - 1] == '}';
    ReplyWithIsRead(reply, loads);
    FencedReply(body);
    DagLookup(reply, loads, map["not_dag" := JString("x")]);
  }

  /** A reply whose only fence is the opening one hands `loads` the empty text, which no JSON parser accepts. */
  lemma OnlyOpenFenceIsInvalidJson(pre: string, post: string, loads: string -> Option<Value>)
    requires forall k :: 0 <= k < |pre| ==> pre[k] != '`'
    requires forall k :: 0 <= k < |post| ==> post[k] != '`'
    requires loads([]) == None
    ensures GenerateDagCode(ReplyWith(pre + OPEN_FENCE + post), loads) == Failure(InvalidJson)
  {
    var reply := pre + OPEN_FENCE + post;
    ReplyWithIsRead(reply, loads);
    OnlyOpenFenceYieldsEmpty(pre, post);
    ExtractDagOutcome(reply, loads);
  }
}
