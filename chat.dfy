/** `answer_query` and the request handling of `chat_endpoint` in main.py.
    The language-model service is a parameter: a function from the prompt
    to either the reply text or the error it raised. */
module Chat {
  import opened Text
  import opened History
  import opened Prompt

  /** What a call returns: a string, or the exception it raised. */
  datatype Outcome = Returned(value: string) | Raised(error: string)

  /** A Python list of turns, updated in place by whoever holds it. */
  class TurnList {
    var items: seq<Turn>

    constructor (items: seq<Turn>)
      ensures this.items == items
    {
      this.items := items;
    }
  }

  /** `answer_query(message, chat_history)`. The prompt is built from the
      history as it stands on entry. When the model call raises, the error
      propagates and the list is untouched; when it returns, the user turn
      and then the assistant turn are appended and the reply is returned.
      The trim rebinds a local name only, so the caller's list keeps every
      turn. */
  method AnswerQuery(message: string, chatHistory: TurnList, llm: PromptVariables -> Outcome, currentTime: string)
    returns (result: Outcome)
    modifies chatHistory
    ensures result == llm(AssemblePrompt(message, old(chatHistory.items), DefaultUserContext, currentTime))
    ensures chatHistory.items == match result
      case Returned(reply) => AppendExchange(old(chatHistory.items), Exchange(message, reply))
      case Raised(_) => old(chatHistory.items)
  {
    var prompt := AssemblePrompt(message, chatHistory.items, DefaultUserContext, currentTime);
    var response := llm(prompt);
    match response
    case Raised(_) =>
      result := response;
    case Returned(content) =>
      ghost var before := chatHistory.items;
      chatHistory.items := chatHistory.items + [Turn(User, message)];
      chatHistory.items := chatHistory.items + [Turn(Assistant, content)];
      assert chatHistory.items == AppendExchange(before, Exchange(message, content));
      var localHistory := TrimmedCopy(chatHistory.items);
      result := Returned(content);
  }

  // ---------------------------------------------------------------------
  // Request validation

  /** A parsed JSON value; numbers as exact decimals. */
  datatype Json =
    | JNull
    | JBool(b: bool)
    | JNumber(n: real)
    | JString(s: string)
    | JArray(elements: seq<Json>)
    | JObject(fields: map<string, Json>)

  /** Python truthiness of the decoded value. */
  predicate Truthy(v: Json) {
    match v
    case JNull => false
    case JBool(b) => b
    case JNumber(n) => n != 0.0
    case JString(s) => s != ""
    case JArray(e) => e != []
    case JObject(f) => f != map[]
  }

  /** `request.json`: the decoded body, or `Unparsable` when reading it
      raises (a body that is not JSON). */
  datatype Body = Unparsable | Parsed(data: Json)

  /** How the request is judged before any model call: no usable message,
      an exception (a value without `.get`, or a message without `.strip`),
      or the stripped message. */
  datatype Validation = NoMessage | Fault | Message(text: string)

  /** The message a well-formed request carries, as the JSON value under
      `"message"`; a missing key reads as `""` (`data.get('message', '')`). */
  function MessageValue(fields: map<string, Json>): Json {
    if "message" in fields then fields["message"] else JString("")
  }

  /** The validation at main.py:145-150. A request passes exactly when it is
      a JSON object whose message is a string that is not all whitespace;
      the message passed on is that string stripped, so it is non-empty and
      trimmed. It is refused as carrying no message exactly when the body is
      falsy or its message is missing or blank. */
  function ValidateChatRequest(body: Body): (v: Validation)
    ensures v.Message? <==>
      body.Parsed? && body.data.JObject? && MessageValue(body.data.fields).JString?
      && !AllSpace(MessageValue(body.data.fields).s)
    ensures v.Message? ==>
      v.text == Strip(MessageValue(body.data.fields).s) && v.text != "" && Trimmed(v.text)
    ensures v.NoMessage? <==>
      body.Parsed? && (!Truthy(body.data)
        || (body.data.JObject? && MessageValue(body.data.fields).JString? && AllSpace(MessageValue(body.data.fields).s)))
  {
    match body
    case Unparsable => Fault
    case Parsed(data) =>
      if !Truthy(data) then NoMessage
      else match data
        case JObject(fields) =>
          (match MessageValue(fields)
           case JString(s) => if Strip(s) == "" then NoMessage else Message(Strip(s))
           case _ => Fault)
        case _ => Fault
  }

  /** A request whose message is ordinary text is accepted with its
      surrounding whitespace removed, and stripping that again changes
      nothing. */
  lemma AcceptedMessageIsStripped(raw: string, pad: string)
    requires AllSpace(pad) && !AllSpace(raw)
    ensures ValidateChatRequest(Parsed(JObject(map["message" := JString(pad + raw + pad)])))
         == Message(Strip(raw))
    ensures Strip(Strip(raw)) == Strip(raw)
  {
    var padded := pad + raw + pad;
    StripPadded(pad, raw, pad);
    StripIdempotent(raw);
    assert MessageValue(map["message" := JString(padded)]) == JString(padded);
    assert !AllSpace(padded) by {
      var k :| 0 <= k < |raw| && !IsSpace(raw[k]);
      assert padded[|pad| + k] == raw[k];
    }
  }

  // ---------------------------------------------------------------------
  // Responses and the endpoint

  /** The `error` member of a JSON error response. */
  datatype ErrorKind =
    | NoMessageProvided
    | NoResponseGenerated
    | FailedToProcess(detail: string)
    | ServerError

  /** A plain-text 200 response with the reply, or a JSON error
      `{"error": error}` with its status code. */
  datatype Response = PlainText(content: string) | JsonError(status: nat, error: string)

  /** The text under `"error"`. For an unexpected exception only the prefix
      is modelled; Python's own wording of the exception is not. */
  function ErrorMessage(e: ErrorKind): string {
    match e
    case NoMessageProvided => "No message provided"
    case NoResponseGenerated => "No response generated"
    case FailedToProcess(detail) => "Failed to process chat: " + detail
    case ServerError => "Server error: "
  }

  /** The process-wide state: the global `conversation_history` list. */
  class App {
    const conversationHistory: TurnList

    /** The history holds only completed exchanges, user turn first. */
    ghost predicate Valid()
      reads this, conversationHistory
    {
      Alternating(conversationHistory.items)
    }

    /** Process start: the history is empty. */
    constructor ()
      ensures Valid() && fresh(conversationHistory) && conversationHistory.items == []
    {
      conversationHistory := new TurnList([]);
    }

    /** `chat_endpoint`. A refused request answers 400 and a faulty one 500,
        both without calling the model and leaving the history as it was.
        An accepted request calls `answer_query` with the stripped message:
        a raised error answers 500 and leaves the history as it was; a reply
        is recorded as one exchange and sent as plain text, except that an
        empty reply, though recorded, answers 500. */
    method ChatEndpoint(body: Body, llm: PromptVariables -> Outcome, currentTime: string)
      returns (response: Response)
      requires Valid()
      modifies conversationHistory
      ensures Valid()
      ensures match ValidateChatRequest(body)
        case NoMessage =>
          response == JsonError(400, ErrorMessage(NoMessageProvided))
          && conversationHistory.items == old(conversationHistory.items)
        case Fault =>
          response == JsonError(500, ErrorMessage(ServerError))
          && conversationHistory.items == old(conversationHistory.items)
        case Message(m) =>
          match llm(AssemblePrompt(m, old(conversationHistory.items), DefaultUserContext, currentTime))
          case Raised(e) =>
            response == JsonError(500, ErrorMessage(FailedToProcess(e)))
            && conversationHistory.items == old(conversationHistory.items)
          case Returned(reply) =>
            conversationHistory.items == AppendExchange(old(conversationHistory.items), Exchange(m, reply))
            && response == (if reply == "" then JsonError(500, ErrorMessage(NoResponseGenerated)) else PlainText(reply))
    {
      var validation := ValidateChatRequest(body);
      match validation
      case NoMessage =>
        response := JsonError(400, ErrorMessage(NoMessageProvided));
      case Fault =>
        response := JsonError(500, ErrorMessage(ServerError));
      case Message(userMessage) =>
        ghost var before := conversationHistory.items;
        var outcome := AnswerQuery(userMessage, conversationHistory, llm, currentTime);
        match outcome
        case Raised(e) =>
          response := JsonError(500, ErrorMessage(FailedToProcess(e)));
        case Returned(text) =>
          AppendKeepsAlternating(before, Exchange(userMessage, text));
          if text == "" {
            response := JsonError(500, ErrorMessage(NoResponseGenerated));
          } else {
            response := PlainText(text);
          }
    }
  }

  /** Whenever the process-wide history is valid, the ten-turn window that
      the next prompt is built from alternates user and assistant turns and
      starts with a user turn. */
  lemma ValidWindowAlternates(app: App)
    requires app.Valid()
    ensures Alternating(RelevantHistory(app.conversationHistory.items, MaxHistoryLength))
  {
    WindowOfAlternating(app.conversationHistory.items, MaxHistoryLength);
  }
}
