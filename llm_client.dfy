/**
  The inference client (`generate_text`): one chat request with a fixed model
  and a single user message, and the nested lookup of the reply's text. The
  backend call itself is a parameter: `reply` says what the backend does with
  a request, either raising or handing back a response.
 */
module LlmClient {
  import opened Wrappers

  /** The model every request names. */
  const Model := "llama3"
  /** The role of the one message a request carries. */
  const UserRole := "user"

  datatype Message = Message(role: string, content: string)

  datatype ChatRequest = ChatRequest(model: string, messages: seq<Message>)

  /** A response as the client sees it: text, a key-to-value mapping, or null. */
  datatype Value = Str(text: string) | Dict(entries: map<string, Value>) | Null

  /** The exception kinds the client is exposed to; every one of them is caught. */
  datatype BackendError = ConnectionFailure | Timeout | ResponseFailure | OtherFailure

  /** What one backend call does: it raises, or it returns a response. */
  datatype ChatOutcome = Raised(error: BackendError) | Returned(response: Value)

  /** The request built for a prompt: the fixed model and the prompt, unchanged, as the only user message. */
  function Request(prompt: string): (req: ChatRequest)
    ensures req.model == Model
    ensures |req.messages| == 1
    ensures req.messages[0].role == UserRole && req.messages[0].content == prompt
  {
    ChatRequest(Model, [Message(UserRole, prompt)])
  }

  /** `v[key]`: the value under `key` of a mapping; any other value, or a missing key, raises. */
  function Lookup(v: Value, key: string): (r: Option<Value>)
    ensures r.Some? <==> v.Dict? && key in v.entries
    ensures r.Some? ==> r.value == v.entries[key]
  {
    if v.Dict? && key in v.entries then Some(v.entries[key]) else None
  }

  /** The response shape the client understands: `response['message']['content']` is text. */
  ghost predicate CarriesContent(v: Value)
  {
    && v.Dict? && "message" in v.entries
    && v.entries["message"].Dict? && "content" in v.entries["message"].entries
    && v.entries["message"].entries["content"].Str?
  }

  /**
    `response['message']['content']` with every exception turned into None: a
    raised call, a missing key, a non-mapping on the way or a null content.
   */
  function ContentOf(outcome: ChatOutcome): (r: Option<string>)
    ensures r.Some? <==> outcome.Returned? && CarriesContent(outcome.response)
    ensures r.Some? ==> Str(r.value) == outcome.response.entries["message"].entries["content"]
  {
    match outcome
    case Raised(_) => None
    case Returned(response) =>
      match Lookup(response, "message")
      case None => None
      case Some(message) =>
        match Lookup(message, "content")
        case Some(Str(text)) => Some(text)
        case _ => None
  }

  /** `generate_text(prompt)`: send the request for `prompt`, hand back the reply's text or None. */
  function GenerateText(reply: ChatRequest -> ChatOutcome, prompt: string): (r: Option<string>)
    ensures r == ContentOf(reply(Request(prompt)))
    ensures reply(Request(prompt)).Raised? ==> r == None
    ensures r.Some? <==> reply(Request(prompt)).Returned? && CarriesContent(reply(Request(prompt)).response)
    ensures r.Some? ==> Str(r.value) == reply(Request(prompt)).response.entries["message"].entries["content"]
  {
    ContentOf(reply(Request(prompt)))
  }

  /** What the callers' `if result:` accepts: a present, non-empty text. */
  predicate IsTruthy(result: Option<string>)
  {
    result.Some? && result.value != ""
  }

  /**
    A well-formed reply comes back verbatim, whatever other keys it carries,
    the empty text included: empty is not absent.
   */
  lemma GenerateTextReturnsContent(reply: ChatRequest -> ChatOutcome, prompt: string, text: string)
    requires reply(Request(prompt)).Returned? && CarriesContent(reply(Request(prompt)).response)
    requires reply(Request(prompt)).response.entries["message"].entries["content"] == Str(text)
    ensures GenerateText(reply, prompt) == Some(text)
  {
  }

  /** Every backend exception becomes None; nothing is raised past the client. */
  lemma GenerateTextContainsErrors(reply: ChatRequest -> ChatOutcome, prompt: string)
    requires reply(Request(prompt)).Raised?
    ensures GenerateText(reply, prompt) == None
  {
  }

  /** A response without a `message` key, or whose message has no `content`, yields None. */
  lemma GenerateTextMissingKey(reply: ChatRequest -> ChatOutcome, prompt: string)
    requires reply(Request(prompt)).Returned?
    requires var v := reply(Request(prompt)).response;
             !v.Dict? || "message" !in v.entries
             || !v.entries["message"].Dict? || "content" !in v.entries["message"].entries
    ensures GenerateText(reply, prompt) == None
  {
  }
}
