/**
 * The dialogue history of a connection and the results of tool calls:
 * messages as `core.utils.dialogue.Message` holds them, the call data the
 * language model's stream yields, the `ActionResponse` a tool returns, and the
 * normalisation of an MCP tool's result (`ConnectionHandler._handle_mcp_tool_call`).
 */
module Dialogue {
  import opened Wrappers

  /** The one tool call an assistant message carries: `{"id", "function": {"arguments", "name"}, "type": "function", "index": 0}`. */
  datatype ToolCall = ToolCall(id: Option<string>, name: string, arguments: string)

  /** A dialogue message, by role. */
  datatype Message =
    | User(content: string)
    | Assistant(content: string)
    | AssistantToolCall(call: ToolCall)
    | Tool(toolCallId: string, content: string)

  /** `function_call_data`: the tool the model asked for; the id may be missing. */
  datatype FunctionCall = FunctionCall(name: string, id: Option<string>, arguments: string)

  /** `plugins_func.register.Action`; `Other` stands for the actions the connection ignores. */
  datatype Action = Response | ReqLlm | NotFound | Error | Other

  /** `ActionResponse(action, result, response)`. */
  datatype ActionResponse = ActionResponse(action: Action, result: string, response: string)

  /** The argument text stored with a tool call: an empty payload becomes the empty JSON object. */
  function StoredArguments(arguments: string): (r: string)
    ensures r != []
    ensures arguments != [] ==> r == arguments
    ensures arguments == [] ==> r == "{}"
  {
    if arguments == [] then "{}" else arguments
  }

  /**
   * The two messages a tool round trip appends before the model is asked
   * again: the assistant's tool call, then the tool's answer, which refers to
   * the call's id or, when the call had none, to a fresh id.
   */
  function ToolRoundTrip(call: FunctionCall, text: string, freshId: string): (r: seq<Message>)
    ensures |r| == 2 && r[0].AssistantToolCall? && r[1].Tool?
    ensures r[0].call == ToolCall(call.id, call.name, StoredArguments(call.arguments))
    ensures r[1].content == text
    ensures r[1].toolCallId == call.id.GetOr(freshId)
  {
    [AssistantToolCall(ToolCall(call.id, call.name, StoredArguments(call.arguments))),
     Tool(call.id.GetOr(freshId), text)]
  }

  /** The answer of a round trip names the call it answers whenever the call carried an id. */
  lemma ToolAnswerMatchesCall(call: FunctionCall, text: string, freshId: string)
    requires call.id.Some?
    ensures var r := ToolRoundTrip(call, text, freshId);
      r[0].call.id == Some(r[1].toolCallId)
  {
  }

  /** What `_handle_function_result` says to the user for a result: nothing, a reply, or a `NameError`. */
  datatype ReplyEffect = NoReply | SpeaksReply(text: string) | RaisesNameError

  /**
   * The reply the connection speaks and records for a result: the response
   * of a direct answer, the result text of a missing or failed tool. A
   * `REQLLM` result is not spoken; it asks the model again.
   */
  function Reply(result: ActionResponse): (r: ReplyEffect)
    ensures r != RaisesNameError
    ensures r.SpeaksReply? <==> result.action in {Response, NotFound, Error}
    ensures result.action == Response ==> r == SpeaksReply(result.response)
    ensures result.action in {NotFound, Error} ==> r == SpeaksReply(result.result)
  {
    match result.action
    case Response => SpeaksReply(result.response)
    case NotFound => SpeaksReply(result.result)
    case Error => SpeaksReply(result.result)
    case _ => NoReply
  }

  /**
   * `_handle_function_result` as written: every branch that speaks first
   * reads `text_index`, a name the method never defines, so it raises before
   * anything is queued or recorded.
   */
  function ReplyAsWritten(result: ActionResponse): ReplyEffect {
    if result.action in {Response, NotFound, Error} then RaisesNameError else NoReply
  }

  /** Every result that should be spoken raises instead, so no direct answer or tool failure ever reaches the user. */
  lemma ReplyIsLostAsWritten(result: ActionResponse)
    ensures Reply(result).SpeaksReply? <==> ReplyAsWritten(result) == RaisesNameError
    ensures ReplyAsWritten(result) != Reply(result) || Reply(result) == NoReply
  {
  }

  // ---------------------------------------------------------------------------
  // MCP tool results
  // ---------------------------------------------------------------------------

  /** One content item of an MCP tool result: its `type` and, for text, its `text`. */
  datatype Content = Content(kind: string, text: string)

  /** What `mcp_manager.execute_tool` gave: an exception, or a result whose content list may be missing. */
  datatype ToolOutcome = Raised | Returned(content: Option<seq<Content>>)

  /** The text passed back to the model when a tool call fails. */
  const ToolCallFailed: string := "工具调用出错"

  /** The text passed back to the model when the arguments are not JSON. */
  const ArgumentsUnparsable: string := "参数解析失败"

  /**
   * The text of the last text item, or "" when there is none: the later text
   * item replaces the earlier one.
   */
  function LastText(items: seq<Content>): string {
    if items == [] then ""
    else if items[|items| - 1].kind == "text" then items[|items| - 1].text
    else LastText(items[..|items| - 1])
  }

  /** With no text item the text is empty; otherwise it is the text of the last text item. */
  lemma {:induction false} LastTextIsLatest(items: seq<Content>)
    ensures (forall i :: 0 <= i < |items| ==> items[i].kind != "text") ==> LastText(items) == ""
    ensures forall i ::
      (0 <= i < |items| && items[i].kind == "text" && (forall j :: i < j < |items| ==> items[j].kind != "text"))
        ==> LastText(items) == items[i].text
  {
    if items != [] {
      var n := |items| - 1;
      LastTextIsLatest(items[..n]);
      assert forall i :: 0 <= i < n ==> items[..n][i] == items[i];
    }
  }

  /** `content_text`: the loop over the content items; image and other items are skipped. */
  method LastTextContent(items: seq<Content>) returns (contentText: string)
    ensures contentText == LastText(items)
  {
    contentText := "";
    for k := 0 to |items|
      invariant contentText == LastText(items[..k])
    {
      var content := items[k];
      if content.kind == "text" {
        contentText := content.text;
      } else if content.kind == "image" {
      }
      assert items[..k + 1][..k] == items[..k];
    }
    assert items[..|items|] == items;
  }

  /**
   * `_handle_mcp_tool_call`: parse the argument text (`parse` is `json.loads`,
   * `None` when it raises), run the tool (`execute`), and hand the last text
   * item back to the model. Every outcome asks the model again (`REQLLM`)
   * with a non-empty text: the tool's text, or a fixed failure message.
   */
  method HandleMcpToolCall<A>(call: FunctionCall, parse: string -> Option<A>, execute: (string, A) -> ToolOutcome)
    returns (r: ActionResponse)
    ensures r.action == ReqLlm && r.response == "" && r.result != ""
    ensures parse(call.arguments).None? ==> r.result == ArgumentsUnparsable
    ensures parse(call.arguments).Some? ==>
      match execute(call.name, parse(call.arguments).value)
      case Raised => r.result == ToolCallFailed
      case Returned(None) => r.result == ToolCallFailed
      case Returned(Some(items)) => r.result == if LastText(items) != "" then LastText(items) else ToolCallFailed
  {
    var args := parse(call.arguments);
    if args.None? {
      return ActionResponse(ReqLlm, ArgumentsUnparsable, "");
    }
    var toolResult := execute(call.name, args.value);
    if toolResult.Raised? {
      return ActionResponse(ReqLlm, ToolCallFailed, "");
    }
    var contentText := "";
    if toolResult.content.Some? {
      contentText := LastTextContent(toolResult.content.value);
    }
    if |contentText| > 0 {
      return ActionResponse(ReqLlm, contentText, "");
    }
    return ActionResponse(ReqLlm, ToolCallFailed, "");
  }
}
