/**
 * The response handling of generate_dag_code_from_openai: the decoded reply
 * body goes in, and either `{"dag_code": <code>}` or the error the Python
 * code raises comes out.
 */
module Extraction {
  import opened Wrappers
  import opened Json
  import opened PyStr

  /** The fence that opens the JSON block, searched with `find`. */
  const OPEN_FENCE: string := "```json"
  /** The fence that closes it, searched with `rfind`. */
  const CLOSE_FENCE: string := "```"

  /** The exceptions the response handling raises. */
  datatype Error =
    | NoValidChoices       // `choices` is missing or empty
    | NoJsonBlock          // a fence was not found
    | InvalidJson          // `json.loads` rejected the extracted text
    | MissingDag           // `dag` is missing from the parsed object or falsy
    | Raised(e: PyError)   // a Python operation met a reply of the wrong shape

  /** The text of the exceptions the code raises itself. */
  function Message(e: Error): (m: Option<string>)
    ensures m.Some? <==> e == NoValidChoices || e == NoJsonBlock || e == MissingDag
  {
    match e
    case NoValidChoices => Some("No valid choices returned from OpenAI")
    case NoJsonBlock => Some("Could not find JSON block in OpenAI response.")
    case MissingDag => Some("Missing 'dag' key in response JSON.")
    case _ => None
  }

  /** Lifts an exception of a Python operation into the response handling's errors. */
  function Lift<T>(r: Result<T, PyError>): (l: Result<T, Error>) {
    match r
    case Success(v) => Success(v)
    case Failure(e) => Failure(Raised(e))
  }

  /**
   * `content[start_index + 7:end_index].strip()`, where `start_index` is
   * `content.find("```json")` and `end_index` is `content.rfind("```")`;
   * None when either search returns -1. The 7 is the length of the opening fence.
   */
  function ExtractJsonBlock(content: string): (r: Option<string>)
    ensures r.Some? ==> NoEdgeSpace(r.value)
  {
    var start := Find(content, OPEN_FENCE);
    var end := RFind(content, CLOSE_FENCE);
    if start == -1 || end == -1 then None
    else Some(Strip(Slice(content, start + 7, end)))
  }

  /** `dag_json.get("dag")`, refused when falsy, wrapped as `{"dag_code": ...}`. */
  function ReadDag(parsed: Value): (r: Result<map<string, Value>, Error>)
    ensures r.Success? <==> parsed.JObject? && "dag" in parsed.fields && Truthy(parsed.fields["dag"])
    ensures r.Success? ==> r.value == map["dag_code" := parsed.fields["dag"]]
    ensures r == Failure(MissingDag) <==> parsed.JObject? && !r.Success?
    ensures !parsed.JObject? ==> r == Failure(Raised(AttributeError))
  {
    match parsed
    case JObject(fields) =>
      var code := Get(fields, "dag");
      if code.None? || !Truthy(code.value) then Failure(MissingDag)
      else Success(map["dag_code" := code.value])
    case _ => Failure(Raised(AttributeError))
  }

  /** `json.loads` (the parameter `loads`) and the `dag` lookup, applied to the extracted text. */
  function DecodeBlock(block: Option<string>, loads: string -> Option<Value>): (r: Result<map<string, Value>, Error>)
    ensures r == Failure(NoJsonBlock) <==> block.None?
    ensures r.Failure? ==> r.error != NoValidChoices
    ensures r == Failure(InvalidJson) <==> block.Some? && loads(block.value).None?
    ensures block.Some? && loads(block.value).Some? ==> r == ReadDag(loads(block.value).value)
    ensures r.Success? ==> "dag_code" in r.value && r.value == map["dag_code" := r.value["dag_code"]] && Truthy(r.value["dag_code"])
  {
    match block
    case None => Failure(NoJsonBlock)
    case Some(text) =>
      match loads(text)
      case None => Failure(InvalidJson)
      case Some(parsed) => ReadDag(parsed)
  }

  /** Everything after the first choice's content has been read: extract, parse with `loads`, read `dag`. */
  function ExtractDag(content: string, loads: string -> Option<Value>): (r: Result<map<string, Value>, Error>)
    ensures r.Failure? ==> r.error != NoValidChoices
    ensures r.Success? ==> "dag_code" in r.value && r.value == map["dag_code" := r.value["dag_code"]] && Truthy(r.value["dag_code"])
  {
    DecodeBlock(ExtractJsonBlock(content), loads)
  }

  /** The reply body has a non-empty `choices` list whose first element is a dict with a
      `message` dict whose `content` is a str. */
  predicate IsWellFormedReply(response: Value) {
    && response.JObject? && "choices" in response.fields
    && var choices := response.fields["choices"];
    && choices.JArray? && |choices.items| > 0
    && var choice := choices.items[0];
    && choice.JObject? && "message" in choice.fields
    && var message := choice.fields["message"];
    && message.JObject? && "content" in message.fields
    && message.fields["content"].JString?
  }

  /** The first choice's content text of a well-formed reply body. */
  function ContentOf(response: Value): (content: string)
    requires IsWellFormedReply(response)
  {
    response.fields["choices"].items[0].fields["message"].fields["content"].s
  }

  /** `response_json['choices'][0]['message']['content']`, guarded by the test that
      `choices` is present and non-empty. */
  function FirstChoiceContent(response: Value): (r: Result<string, Error>)
    ensures r.Success? <==> IsWellFormedReply(response)
    ensures r.Success? ==> r.value == ContentOf(response)
    ensures r.Failure? ==> r.error == NoValidChoices || r.error.Raised?
  {
    var hasChoices :- Lift(In("choices", response));
    if !hasChoices then Failure(NoValidChoices)
    else
      var choices :- Lift(Field(response, "choices"));
      var count :- Lift(Len(choices));
      if count == 0 then Failure(NoValidChoices)
      else
        var choice :- Lift(First(choices));
        var message :- Lift(Field(choice, "message"));
        var content :- Lift(Field(message, "content"));
        if content.JString? then Success(content.s) else Failure(Raised(AttributeError))
  }

  /** The response handling applied to the decoded reply body. */
  function GenerateDagCode(response: Value, loads: string -> Option<Value>): (r: Result<map<string, Value>, Error>)
    ensures r.Success? ==> IsWellFormedReply(response)
    ensures IsWellFormedReply(response) ==> r == ExtractDag(ContentOf(response), loads)
    ensures !IsWellFormedReply(response) ==> r == Failure(FirstChoiceContent(response).error)
    ensures r.Success? ==> "dag_code" in r.value && r.value == map["dag_code" := r.value["dag_code"]] && Truthy(r.value["dag_code"])
  {
    var content :- FirstChoiceContent(response);
    ExtractDag(content, loads)
  }
}
