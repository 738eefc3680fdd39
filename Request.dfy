/**
 * The request side of generate_dag_code_from_openai: the image travels as a
 * `data:` URL inside a chat-completion payload.
 */
module Request {
  import opened Wrappers
  import opened Json

  const DATA_URL_PREFIX: string := "data:image/png;base64,"

  /** Defaults of the generation parameters of generate_dag_code_from_openai. */
  const DEFAULT_SEED: int := 42
  const DEFAULT_TEMPERATURE: real := 0.1
  const DEFAULT_TOP_P: real := 0.95
  const DEFAULT_MAX_TOKENS: int := 800

  /** The dictionary `{"encoded_image": <base64 text>}` the image encoder returns. */
  datatype EncodedImage = EncodedImage(encodedImage: string)

  /** The image reference sent to the model: the base64 text behind a PNG data-URL prefix. */
  function ImageUrl(image: EncodedImage): (url: string)
    ensures |url| == |DATA_URL_PREFIX| + |image.encodedImage|
    ensures url[..|DATA_URL_PREFIX|] == DATA_URL_PREFIX
    ensures url[|DATA_URL_PREFIX|..] == image.encodedImage
  {
    DATA_URL_PREFIX + image.encodedImage
  }

  /** The base64 text of a PNG data URL, or None when `url` lacks the prefix. */
  function EncodedDataOf(url: string): (data: Option<string>)
    ensures data.Some? <==> |DATA_URL_PREFIX| <= |url| && url[..|DATA_URL_PREFIX|] == DATA_URL_PREFIX
    ensures data.Some? ==> DATA_URL_PREFIX + data.value == url
  {
    if |DATA_URL_PREFIX| <= |url| && url[..|DATA_URL_PREFIX|] == DATA_URL_PREFIX
    then Some(url[|DATA_URL_PREFIX|..])
    else None
  }

  /** Stripping the prefix recovers the encoded image unchanged. */
  lemma ImageUrlRoundTrip(image: EncodedImage)
    ensures EncodedDataOf(ImageUrl(image)) == Some(image.encodedImage)
  {
  }

  /** Distinct images give distinct URLs. */
  lemma ImageUrlInjective(a: EncodedImage, b: EncodedImage)
    ensures ImageUrl(a) == ImageUrl(b) <==> a == b
  {
    if ImageUrl(a) == ImageUrl(b) {
      ImageUrlRoundTrip(a);
      ImageUrlRoundTrip(b);
    }
  }

  function TextPart(text: string): (part: Value) {
    JObject(map["type" := JString("text"), "text" := JString(text)])
  }

  function ImagePart(url: string): (part: Value) {
    JObject(map["type" := JString("image_url"), "image_url" := JObject(map["url" := JString(url)])])
  }

  function Message(role: string, part: Value): (message: Value) {
    JObject(map["role" := JString(role), "content" := JArray([part])])
  }

  /** The JSON body POSTed to the endpoint: a system message and a user message holding the image. */
  function BuildPayload(image: EncodedImage, systemPrompt: string, seed: int, temperature: real,
                        topP: real, maxTokens: int): (payload: Value)
    ensures payload.JObject? && payload.fields.Keys == {"messages", "seed", "temperature", "top_p", "max_tokens"}
    ensures MessageAt(payload, 0).Some? && MessageAt(payload, 1).Some? && MessageAt(payload, 2).None?
    ensures Field(MessageAt(payload, 0).value, "role") == Success(JString("system"))
    ensures Field(MessageAt(payload, 1).value, "role") == Success(JString("user"))
  {
    JObject(map[
      "messages" := JArray([Message("system", TextPart(systemPrompt)),
                            Message("user", ImagePart(ImageUrl(image)))]),
      "seed" := JNumber(seed as real),
      "temperature" := JNumber(temperature),
      "top_p" := JNumber(topP),
      "max_tokens" := JNumber(maxTokens as real)])
  }

  /** The `i`-th message of a payload. */
  function MessageAt(payload: Value, i: nat): (message: Option<Value>) {
    match Field(payload, "messages")
    case Success(JArray(items)) => if i < |items| then Some(items[i]) else None
    case _ => None
  }

  /** The first content part of a message, looked up as a receiver of the payload would. */
  function FirstPart(message: Value): (part: Option<Value>) {
    match Field(message, "content")
    case Success(content) => (match First(content) case Success(part) => Some(part) case Failure(_) => None)
    case Failure(_) => None
  }

  /** `payload["messages"][1]["content"][0]["image_url"]["url"]` */
  function ImageUrlOf(payload: Value): (url: Option<string>) {
    match MessageAt(payload, 1)
    case None => None
    case Some(message) =>
      match FirstPart(message)
      case None => None
      case Some(part) =>
        match Field(part, "image_url")
        case Failure(_) => None
        case Success(ref) =>
          match Field(ref, "url")
          case Success(JString(url)) => Some(url)
          case _ => None
  }

  /** `payload["messages"][0]["content"][0]["text"]` */
  function SystemPromptOf(payload: Value): (text: Option<string>) {
    match MessageAt(payload, 0)
    case None => None
    case Some(message) =>
      match FirstPart(message)
      case None => None
      case Some(part) =>
        match Field(part, "text")
        case Success(JString(text)) => Some(text)
        case _ => None
  }

  /** The single content part of a message is its first part. */
  lemma FirstPartOfMessage(role: string, part: Value)
    ensures FirstPart(Message(role, part)) == Some(part)
  {
    assert Field(Message(role, part), "content") == Success(JArray([part]));
  }

  /** A receiver of the payload reads back the image URL, and from it the encoded image, unchanged. */
  lemma PayloadCarriesImage(image: EncodedImage, systemPrompt: string, seed: int, temperature: real,
                            topP: real, maxTokens: int)
    ensures var p := BuildPayload(image, systemPrompt, seed, temperature, topP, maxTokens);
      && ImageUrlOf(p) == Some(ImageUrl(image))
      && EncodedDataOf(ImageUrlOf(p).value) == Some(image.encodedImage)
  {
    var p := BuildPayload(image, systemPrompt, seed, temperature, topP, maxTokens);
    var url := ImageUrl(image);
    assert MessageAt(p, 1) == Some(Message("user", ImagePart(url)));
    FirstPartOfMessage("user", ImagePart(url));
    assert Field(ImagePart(url), "image_url") == Success(JObject(map["url" := JString(url)]));
    ImageUrlRoundTrip(image);
  }

  /** A receiver of the payload reads back the system instructions unchanged. */
  lemma PayloadCarriesPrompt(image: EncodedImage, systemPrompt: string, seed: int, temperature: real,
                             topP: real, maxTokens: int)
    ensures SystemPromptOf(BuildPayload(image, systemPrompt, seed, temperature, topP, maxTokens)) == Some(systemPrompt)
  {
    var p := BuildPayload(image, systemPrompt, seed, temperature, topP, maxTokens);
    assert MessageAt(p, 0) == Some(Message("system", TextPart(systemPrompt)));
    FirstPartOfMessage("system", TextPart(systemPrompt));
  }

  /** The generation parameters reach the payload unchanged. */
  lemma PayloadCarriesParameters(image: EncodedImage, systemPrompt: string, seed: int, temperature: real,
                                 topP: real, maxTokens: int)
    ensures var p := BuildPayload(image, systemPrompt, seed, temperature, topP, maxTokens);
      && Field(p, "seed") == Success(JNumber(seed as real))
      && Field(p, "max_tokens") == Success(JNumber(maxTokens as real))
      && Field(p, "temperature") == Success(JNumber(temperature))
      && Field(p, "top_p") == Success(JNumber(topP))
  {
  }

  /** Called with its defaults, the request carries seed 42, temperature 0.1, top-p 0.95 and 800 max tokens. */
  lemma DefaultParameters(image: EncodedImage, systemPrompt: string)
    ensures var p := BuildPayload(image, systemPrompt, DEFAULT_SEED, DEFAULT_TEMPERATURE, DEFAULT_TOP_P, DEFAULT_MAX_TOKENS);
      && Field(p, "seed") == Success(JNumber(42.0))
      && Field(p, "temperature") == Success(JNumber(0.1))
      && Field(p, "top_p") == Success(JNumber(0.95))
      && Field(p, "max_tokens") == Success(JNumber(800.0))
  {
    PayloadCarriesParameters(image, systemPrompt, DEFAULT_SEED, DEFAULT_TEMPERATURE, DEFAULT_TOP_P, DEFAULT_MAX_TOKENS);
  }
}
