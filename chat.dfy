/** The chat endpoint: the request body's validator (`check_max_messages`)
    and the handler `chat`, which calls the completion API once and, when the
    model's reply asks for a tool, calls the retrieval API once. Both APIs are
    parameters: functions from the request sent to the answer received. */
module Chat {

  datatype Message = Message(role: string, content: string)

  /** The largest number of messages a request body may carry. */
  const MaxMessages: nat := 5

  /** The ValueError of the validator, reported as a validation error. */
  datatype ValidationError = TooManyMessages(limit: nat)

  datatype Validated = Accepted(messages: seq<Message>) | Rejected(error: ValidationError)

  /** `Messages.check_max_messages`: a list of at most five messages is
      returned as it is, a longer one is refused. */
  function CheckMaxMessages(v: seq<Message>): (r: Validated)
    ensures r.Accepted? <==> |v| <= 5
    ensures r.Accepted? ==> r.messages == v
    ensures r.Rejected? ==> r.error == TooManyMessages(5)
  {
    if |v| > MaxMessages then Rejected(TooManyMessages(MaxMessages)) else Accepted(v)
  }

  /** One entry of the prompt: the fixed system persona (its text is not
      modelled), or one of the caller's messages. */
  datatype PromptEntry = SystemPersona | Supplied(message: Message)

  /** A tool offered to the model, by its name and the one parameter its schema
      declares. The schema's "required" list sits beside "parameters" rather
      than inside it, so the parameter is declared but not marked required. */
  datatype Tool = Tool(name: string, parameter: string)

  datatype CompletionRequest = CompletionRequest(
    model: string, temperature: int, messages: seq<PromptEntry>, tools: seq<Tool>)

  const ModelId: string := "gpt-3.5-turbo-0125"

  const KnowledgeTool: Tool := Tool("consultar_informacao", "query")

  /** The completion request: the persona first, then the caller's messages in
      their order, temperature 0 and the one knowledge-base tool. */
  function CompletionFor(messages: seq<Message>): (req: CompletionRequest)
    ensures |req.messages| == |messages| + 1 && req.messages[0] == SystemPersona
    ensures forall i :: 0 <= i < |messages| ==> req.messages[i + 1] == Supplied(messages[i])
    ensures req.model == "gpt-3.5-turbo-0125" && req.temperature == 0
    ensures req.tools == [Tool("consultar_informacao", "query")]
  {
    CompletionRequest(
      ModelId, 0,
      [SystemPersona] + seq(|messages|, i requires 0 <= i < |messages| => Supplied(messages[i])),
      [KnowledgeTool])
  }

  /** The `content` of a reply message, which the API may leave null. */
  datatype Content = NoContent | Text(text: string)

  datatype ToolCall = ToolCall(name: string, arguments: string)

  /** The message of one choice; no tool calls and a null list look alike. */
  datatype AssistantMessage = AssistantMessage(content: Content, toolCalls: seq<ToolCall>)

  /** What the completion API answers: its choices, or an exception. */
  datatype Completion = Completed(choices: seq<AssistantMessage>) | CompletionRaised(reason: string)

  datatype Filter = Equals(key: string, value: string)

  datatype RetrievalRequest = RetrievalRequest(
    text: string, numberOfResults: nat, searchType: string, filter: Filter)

  /** The retrieval sent on every tool call: constant text and owner filter,
      whatever the conversation and the tool call's arguments. */
  const FixedRetrieval: RetrievalRequest :=
    RetrievalRequest("pizzaplanet", 1, "SEMANTIC", Equals("owner", "teste"))

  /** The retrieval API's answer, passed back without being looked into. */
  datatype RawRetrieval = RawRetrieval(body: string)

  datatype Retrieval = Retrieved(raw: RawRetrieval) | RetrievalRaised(reason: string)

  /** An external call made while handling one request. */
  datatype Call = CompletionCall(request: CompletionRequest) | RetrievalCall(query: RetrievalRequest)

  datatype ChatResponse =
    | Invalid(error: ValidationError)
    | Answer(content: Content)
    | RetrievalResult(raw: RawRetrieval)
    | ServerError(reason: string)
  {
    function Status(): nat {
      match this
      case Invalid(_) => 422
      case ServerError(_) => 500
      case _ => 200
    }
  }

  /** The external calls of one request, in order, and its response. */
  datatype ChatRun = ChatRun(calls: seq<Call>, response: ChatResponse)

  /** What `choices[0]` raises on an empty list of choices. */
  const IndexErrorText: string := "list index out of range"

  /** Validation, then `chat`: one completion call; its first choice's text
      when it has no tool call, else the answer of one fixed retrieval. */
  function Chat(body: seq<Message>, complete: CompletionRequest -> Completion,
                retrieve: RetrievalRequest -> Retrieval): (run: ChatRun)
    ensures run.response.Invalid? <==> |body| > MaxMessages
    ensures run.response.Invalid? ==> run.calls == []
    ensures !run.response.Invalid? ==>
      1 <= |run.calls| <= 2 && run.calls[0] == CompletionCall(CompletionFor(body))
    ensures forall i :: 1 <= i < |run.calls| ==> run.calls[i] == RetrievalCall(FixedRetrieval)
  {
    match CheckMaxMessages(body)
    case Rejected(error) => ChatRun([], Invalid(error))
    case Accepted(messages) =>
      var request := CompletionFor(messages);
      match complete(request)
      case CompletionRaised(reason) => ChatRun([CompletionCall(request)], ServerError(reason))
      case Completed(choices) =>
        if |choices| == 0 then
          ChatRun([CompletionCall(request)], ServerError(IndexErrorText))
        else if |choices[0].toolCalls| == 0 then
          ChatRun([CompletionCall(request)], Answer(choices[0].content))
        else
          var calls := [CompletionCall(request), RetrievalCall(FixedRetrieval)];
          match retrieve(FixedRetrieval)
          case Retrieved(raw) => ChatRun(calls, RetrievalResult(raw))
          case RetrievalRaised(reason) => ChatRun(calls, ServerError(reason))
  }

  /** Number of completion calls in a trace. */
  function CompletionCalls(calls: seq<Call>): nat {
    if calls == [] then 0
    else (if calls[0].CompletionCall? then 1 else 0) + CompletionCalls(calls[1..])
  }

  /** Six messages or more are refused before any external call. */
  lemma TooManyMessagesRejected(body: seq<Message>, complete: CompletionRequest -> Completion,
                                retrieve: RetrievalRequest -> Retrieval)
    requires |body| > 5
    ensures Chat(body, complete, retrieve) == ChatRun([], Invalid(TooManyMessages(5)))
    ensures Chat(body, complete, retrieve).response.Status() == 422
  {
  }

  /** Five messages or fewer pass the validator unchanged: the completion
      request carries exactly them, in their order, after the persona. */
  lemma AtMostFiveAccepted(body: seq<Message>, complete: CompletionRequest -> Completion,
                           retrieve: RetrievalRequest -> Retrieval)
    requires |body| <= 5
    ensures var run := Chat(body, complete, retrieve);
      && !run.response.Invalid?
      && run.calls[0].CompletionCall?
      && run.calls[0].request.model == "gpt-3.5-turbo-0125"
      && run.calls[0].request.temperature == 0
      && run.calls[0].request.tools == [KnowledgeTool]
      && run.calls[0].request.messages[..1] == [SystemPersona]
      && |run.calls[0].request.messages[1..]| == |body|
      && forall i :: 0 <= i < |body| ==> run.calls[0].request.messages[1..][i] == Supplied(body[i])
  {
    var req := CompletionFor(body);
    assert forall i :: 0 <= i < |body| ==> req.messages[1..][i] == req.messages[i + 1];
  }

  /** A reply without tool calls is answered with its text, verbatim, after
      exactly one external call. */
  lemma DirectAnswer(body: seq<Message>, complete: CompletionRequest -> Completion,
                     retrieve: RetrievalRequest -> Retrieval)
    requires |body| <= 5
    requires complete(CompletionFor(body)).Completed?
    requires |complete(CompletionFor(body)).choices| > 0
    requires complete(CompletionFor(body)).choices[0].toolCalls == []
    ensures var run := Chat(body, complete, retrieve);
      && run.calls == [CompletionCall(CompletionFor(body))]
      && run.response == Answer(complete(CompletionFor(body)).choices[0].content)
  {
  }

  /** A reply with a tool call leads to exactly one retrieval, with the fixed
      request, and to no second completion call; its answer is returned as it is. */
  lemma ToolCallRetrieves(body: seq<Message>, complete: CompletionRequest -> Completion,
                          retrieve: RetrievalRequest -> Retrieval)
    requires |body| <= 5
    requires complete(CompletionFor(body)).Completed?
    requires |complete(CompletionFor(body)).choices| > 0
    requires complete(CompletionFor(body)).choices[0].toolCalls != []
    ensures var run := Chat(body, complete, retrieve);
      && run.calls == [CompletionCall(CompletionFor(body)), RetrievalCall(FixedRetrieval)]
      && CompletionCalls(run.calls) == 1
      && run.response == (match retrieve(FixedRetrieval)
                          case Retrieved(raw) => RetrievalResult(raw)
                          case RetrievalRaised(reason) => ServerError(reason))
  {
    var run := Chat(body, complete, retrieve);
    assert run.calls[1..] == [RetrievalCall(FixedRetrieval)];
    assert run.calls[1..][1..] == [];
    assert CompletionCalls(run.calls[1..]) == 0 + CompletionCalls(run.calls[1..][1..]);
    assert CompletionCalls(run.calls) == 1 + CompletionCalls(run.calls[1..]);
  }

  /** The fixed retrieval: query "pizzaplanet", one result, owner == "teste". */
  lemma RetrievalIsConstant(body: seq<Message>, complete: CompletionRequest -> Completion,
                            retrieve: RetrievalRequest -> Retrieval)
    requires |Chat(body, complete, retrieve).calls| == 2
    ensures Chat(body, complete, retrieve).calls[1] ==
      RetrievalCall(RetrievalRequest("pizzaplanet", 1, "SEMANTIC", Equals("owner", "teste")))
  {
  }

  /** The tool call's arguments are not looked into: whatever two replies ask
      for, the retrieval they lead to is the same. */
  lemma RetrievalIgnoresArguments(body1: seq<Message>, complete1: CompletionRequest -> Completion,
                                  body2: seq<Message>, complete2: CompletionRequest -> Completion,
                                  retrieve: RetrievalRequest -> Retrieval)
    requires |Chat(body1, complete1, retrieve).calls| == 2
    requires |Chat(body2, complete2, retrieve).calls| == 2
    ensures Chat(body1, complete1, retrieve).calls[1] == Chat(body2, complete2, retrieve).calls[1]
    ensures Chat(body1, complete1, retrieve).response == Chat(body2, complete2, retrieve).response
  {
  }

  /** The completion API is called once per accepted request, never again. */
  lemma OneCompletionCall(body: seq<Message>, complete: CompletionRequest -> Completion,
                          retrieve: RetrievalRequest -> Retrieval)
    ensures CompletionCalls(Chat(body, complete, retrieve).calls) == if |body| <= 5 then 1 else 0
  {
    var calls := Chat(body, complete, retrieve).calls;
    if |calls| > 0 {
      assert CompletionCalls(calls) == 1 + CompletionCalls(calls[1..]);
      if |calls| == 2 {
        assert calls[1..][1..] == [];
      }
    }
  }
}
