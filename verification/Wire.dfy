/**
 Formats, events and the per-format stream payloads (internal/wire: format.go, canonical.go and the
 stream functions of chat_adapter.go, responses_adapter.go and anthropic_adapter.go).
 JSON is a value here; Sse prints it.
 */
module Wire {
  import opened Wrappers
  import opened Text

  datatype Format = UnknownFormat | ChatCompletions | Responses | AnthropicMessages {
    predicate Valid() { this != UnknownFormat }
  }

  datatype Json =
    | Null | Bool(b: bool) | Num(n: int) | Str(s: string) | Arr(items: seq<Json>) | Obj(fields: map<string, Json>)

  type Object = map<string, Json>

  datatype Usage = Usage(input: int, output: int, total: int, cachedRead: int, cacheWrite: int, reasoning: int,
                         netOfCache: bool)

  const NO_USAGE := Usage(0, 0, 0, 0, 0, 0, false)

  /** A message as far as its text goes: one string per text block, and one per reasoning block. */
  datatype Message = Message(role: string, texts: seq<string>, reasoning: seq<string>)

  datatype Response = Response(id: string, model: string, messages: seq<Message>, text: string, finishReason: string,
                               usage: Usage)

  const NO_RESPONSE := Response("", "", [], "", "", NO_USAGE)

  datatype ProviderError = ProviderError(kind: string, code: string, message: string)

  datatype Event =
    | ResponseEvent(response: Response)
    | TextDelta(text: string)
    | ReasoningDelta(reasoning: string)
    | UsageEvent(usage: Usage)
    | Complete(finishReason: string)
    | ErrorEvent(error: ProviderError)

  // ---------------------------------------------------------------- reading JSON fields

  function StringAt(o: Object, key: string): string {
    if key in o && o[key].Str? then o[key].s else ""
  }

  /** json.Unmarshal into a map: an object, or null read as the empty map. */
  function ObjectAt(o: Object, key: string): Option<Object> {
    if key !in o then None
    else match o[key]
      case Obj(fields) => Some(fields)
      case Null => Some(map[])
      case _ => None
  }

  /** json.Unmarshal into a list of maps: every item an object, or null read as the empty map. */
  function ObjectsAt(o: Object, key: string): Option<seq<Object>> {
    if key in o && o[key].Arr? && (forall j :: j in o[key].items ==> j.Obj? || j.Null?)
    then Some(seq(|o[key].items|, i requires 0 <= i < |o[key].items| =>
                    if o[key].items[i].Obj? then o[key].items[i].fields else map[]))
    else None
  }

  function SetNum(old_: int, o: Object, key: string): int {
    if key in o && o[key].Num? then o[key].n else old_
  }

  function ValueOr(value: string, fallback: string): string {
    if value == "" then fallback else value
  }

  // ---------------------------------------------------------------- usage

  function UsagePayload(o: Object): Object {
    if "usage" in o then o
    else
      var r := ObjectAt(o, "response");
      if r.Some? && "usage" in r.value then r.value
      else
        var m := ObjectAt(o, "message");
        if m.Some? && "usage" in m.value then m.value else o
  }

  predicate HasUsage(o: Object) { "usage" in UsagePayload(o) }

  function Details(v: Object, key: string): Object { ObjectAt(v, key).GetOr(map[]) }

  function DecodeUsage(o: Object, u: Usage): Usage {
    var p := UsagePayload(o);
    if ObjectAt(p, "usage").None? then u
    else
      var v := ObjectAt(p, "usage").value;
      var prompt, input := Details(v, "prompt_tokens_details"), Details(v, "input_tokens_details");
      var completion, output := Details(v, "completion_tokens_details"), Details(v, "output_tokens_details");
      var inputTokens := SetNum(SetNum(u.input, v, "prompt_tokens"), v, "input_tokens");
      var outputTokens := SetNum(SetNum(u.output, v, "completion_tokens"), v, "output_tokens");
      var read := SetNum(SetNum(u.cachedRead, prompt, "cached_tokens"), prompt, "cache_read_input_tokens");
      var read' := SetNum(SetNum(read, input, "cached_tokens"), input, "cache_read_input_tokens");
      var read'' := SetNum(SetNum(read', v, "cached_tokens"), v, "cache_read_input_tokens");
      var write := SetNum(SetNum(u.cacheWrite, prompt, "cache_write_tokens"), input, "cache_write_tokens");
      var write' := SetNum(SetNum(write, v, "cache_creation_input_tokens"), v, "cache_write_tokens");
      var reasoning := SetNum(SetNum(u.reasoning, v, "reasoning_tokens"), completion, "reasoning_tokens");
      var reasoning' := SetNum(SetNum(reasoning, output, "reasoning_tokens"), output, "thinking_tokens");
      var net := u.netOfCache || "cache_read_input_tokens" in v;
      var total := SetNum(u.total, v, "total_tokens");
      var total' := if total != 0 then total else inputTokens + outputTokens + (if net then read'' + write' else 0);
      Usage(inputTokens, outputTokens, total', read'', write', reasoning', net)
  }

  /** A later sparse snapshot never erases an earlier value, and the total never shrinks. */
  function MergeUsage(d: Usage, s: Usage): (r: Usage)
    ensures r.total >= d.total && r.total >= s.total
    ensures r.total >= r.input + r.output + if r.netOfCache then r.cachedRead + r.cacheWrite else 0
    ensures r.total in {d.total, s.total, r.input + r.output + if r.netOfCache then r.cachedRead + r.cacheWrite else 0}
  {
    var m := Usage(
      if s.input != 0 then s.input else d.input, if s.output != 0 then s.output else d.output, d.total,
      if s.cachedRead != 0 then s.cachedRead else d.cachedRead,
      if s.cacheWrite != 0 then s.cacheWrite else d.cacheWrite,
      if s.reasoning != 0 then s.reasoning else d.reasoning, d.netOfCache || s.netOfCache);
    var sum := m.input + m.output + (if m.netOfCache then m.cachedRead + m.cacheWrite else 0);
    m.(total := Max(Max(d.total, s.total), sum))
  }

  function NonZero(key: string, n: int): Object {
    if n != 0 then map[key := Num(n)] else map[]
  }

  function Nested(key: string, o: Object): Object {
    if |o| > 0 then map[key := Obj(o)] else map[]
  }

  function InputDetails(u: Usage): Object {
    NonZero("cached_tokens", u.cachedRead) + NonZero("cache_write_tokens", u.cacheWrite)
  }

  function OutputDetails(u: Usage): Object { NonZero("reasoning_tokens", u.reasoning) }

  // ---------------------------------------------------------------- Chat Completions

  function ChatChunk(choices: seq<Json>): Object {
    map["id" := Str("chatcmpl-translation"), "object" := Str("chat.completion.chunk"), "choices" := Arr(choices)]
  }

  function ChatDelta(delta: Object, finish: Json): Object {
    ChatChunk([Obj(map["index" := Num(0), "delta" := Obj(delta), "finish_reason" := finish])])
  }

  function ChatTotals(u: Usage): Object {
    map["prompt_tokens" := Num(u.input), "completion_tokens" := Num(u.output), "total_tokens" := Num(u.total)]
  }

  function ChatUsage(u: Usage): Object {
    ChatTotals(u) + Nested("prompt_tokens_details", InputDetails(u))
    + Nested("completion_tokens_details", OutputDetails(u))
  }

  function EncodeChat(e: Event): Object {
    match e
    case ErrorEvent(err) =>
      map["error" := Obj(map["message" := Str(err.message), "type" := Str(ValueOr(err.kind, "upstream_error"))])]
    case UsageEvent(u) => ChatChunk([])["usage" := Obj(ChatUsage(u))]
    case ReasoningDelta(r) => ChatDelta(map["reasoning_content" := Str(r)], Null)
    case Complete(finish) => ChatDelta(map[], Str(ValueOr(finish, "stop")))
    case TextDelta(t) => ChatDelta(map["role" := Str("assistant"), "content" := Str(t)], Null)
    case ResponseEvent(_) => ChatDelta(map["role" := Str("assistant"), "content" := Str("")], Null)
  }

  function DecodeChat(o: Object): Option<Event> {
    var choices := ObjectsAt(o, "choices").GetOr([]);
    if choices == [] then None
    else
      var delta := ObjectAt(choices[0], "delta");
      if delta.None? then None
      else if StringAt(delta.value, "content") != "" then Some(TextDelta(StringAt(delta.value, "content")))
      else if StringAt(delta.value, "reasoning_content") != ""
      then Some(ReasoningDelta(StringAt(delta.value, "reasoning_content")))
      else None
  }

  // ---------------------------------------------------------------- Anthropic Messages

  function Typed(kind: string, rest: Object): Object { rest["type" := Str(kind)] }

  function EncodeAnthropic(e: Event): Object {
    match e
    case ErrorEvent(err) =>
      Typed("error", map["error" := Obj(map["type" := Str(ValueOr(err.kind, "api_error")),
                                            "message" := Str(err.message)])])
    case UsageEvent(u) =>
      Typed("message_delta", map["delta" := Obj(map[]),
                                 "usage" := Obj(map["input_tokens" := Num(u.input), "output_tokens" := Num(u.output)])])
    case Complete(_) => Typed("message_stop", map[])
    case ReasoningDelta(r) =>
      Typed("content_block_delta", map["index" := Num(0),
                                       "delta" := Obj(Typed("thinking_delta", map["thinking" := Str(r)]))])
    case TextDelta(t) => Typed("content_block_delta", map["delta" := Obj(Typed("text_delta", map["text" := Str(t)]))])
    case ResponseEvent(_) =>
      Typed("content_block_delta", map["delta" := Obj(Typed("text_delta", map["text" := Str("")]))])
  }

  function DecodeAnthropic(o: Object): Option<Event> {
    var delta := ObjectAt(o, "delta");
    if delta.None? then None
    else if StringAt(delta.value, "text") != "" then Some(TextDelta(StringAt(delta.value, "text")))
    else if StringAt(delta.value, "type") == "thinking_delta"
    then Some(ReasoningDelta(StringAt(delta.value, "thinking")))
    else None
  }

  // ---------------------------------------------------------------- Responses

  function UsageTotals(u: Usage): Object {
    map["input_tokens" := Num(u.input), "output_tokens" := Num(u.output), "total_tokens" := Num(u.total)]
  }

  function ResponsesUsage(u: Usage): Object {
    UsageTotals(u) + Nested("input_tokens_details", InputDetails(u)) + Nested("output_tokens_details", OutputDetails(u))
  }

  function EncodeResponse(r: Response): Object {
    map["id" := Str(ValueOr(r.id, "resp-translation")), "object" := Str("response"), "model" := Str(r.model),
        "status" := Str("completed"), "output_text" := Str(r.text),
        "output" := Arr([Obj(Typed("message", map["role" := Str("assistant"),
                      "content" := Arr([Obj(Typed("output_text", map["text" := Str(r.text)]))])]))]),
        "usage" := Obj(ResponsesUsage(r.usage))]
  }

  /** The payload of an event, or None when the format carries it in the final snapshot instead. */
  function EncodeResponses(e: Event): Option<Object> {
    match e
    case ResponseEvent(r) => Some(Typed("response.completed", map["response" := Obj(EncodeResponse(r))]))
    case ErrorEvent(err) =>
      Some(Typed("error", map["error" := Obj(map["message" := Str(err.message), "code" := Str(err.code)])]))
    case UsageEvent(_) => None
    case Complete(_) => Some(Typed("response.completed", map[]))
    case ReasoningDelta(r) => Some(Typed("response.reasoning.delta", map["delta" := Str(r)]))
    case TextDelta(t) => Some(Typed("response.output_text.delta", map["delta" := Str(t)]))
  }

  function DecodeResponsesDelta(o: Object): Option<Event> {
    var kind := StringAt(o, "type");
    if kind == "response.output_text.delta" then
      (if StringAt(o, "delta") != "" then Some(TextDelta(StringAt(o, "delta"))) else None)
    else if kind == "response.reasoning_text.delta" || kind == "response.reasoning_summary_text.delta"
    then Some(ReasoningDelta(StringAt(o, "delta")))
    else None
  }

  function FinishReason(status: string): string {
    if status == "completed" then "stop" else if status == "incomplete" then "length" else status
  }

  /** Block types the program can decode; any other makes the whole content unreadable. */
  const BLOCK_TYPES := {"", "text", "input_text", "output_text", "image", "image_url", "input_image",
                        "audio", "input_audio", "file", "input_file", "document", "reasoning", "thinking",
                        "tool_use", "function_call", "tool_result", "function_call_output"}

  function BlockTexts(blocks: seq<Object>): seq<string> {
    seq(|blocks|, i requires 0 <= i < |blocks| => StringAt(blocks[i], "text"))
  }

  /** The texts of a content field: a plain string, or a list of blocks. */
  function ContentTexts(o: Object): seq<string> {
    if "content" in o && o["content"].Str? then [o["content"].s]
    else
      var blocks := ObjectsAt(o, "content").GetOr([]);
      if forall b :: b in blocks ==> ToLower(StringAt(b, "type")) in BLOCK_TYPES then BlockTexts(blocks) else []
  }

  function OutputMessages(items: seq<Object>): seq<Message> {
    seq(|items|, i requires 0 <= i < |items| =>
      Message(ValueOr(StringAt(items[i], "role"), "assistant"), ContentTexts(items[i]), []))
  }

  function JoinTexts(texts: seq<string>): string {
    if texts == [] then ""
    else
      var init, last := JoinTexts(texts[..|texts| - 1]), texts[|texts| - 1];
      if last == "" then init else if init == "" then last else init + "\n" + last
  }

  function MessagesText(ms: seq<Message>): string {
    if ms == [] then "" else MessagesText(ms[..|ms| - 1]) + JoinTexts(ms[|ms| - 1].texts)
  }

  /** The response inside a payload; lifecycle events wrap it under `response`. None means no content. */
  function DecodeResponse(o: Object): Option<Response>
    decreases Obj(o)
  {
    if "output" !in o && "output_text" !in o && "response" in o && o["response"].Obj?
    then DecodeResponse(o["response"].fields)
    else
      var messages := OutputMessages(ObjectsAt(o, "output").GetOr([]));
      var direct := StringAt(o, "output_text");
      var text := if direct != "" then direct else MessagesText(messages);
      if messages == [] && text == "" then None
      else Some(Response(StringAt(o, "id"), StringAt(o, "model"), messages, text,
                         FinishReason(StringAt(o, "status")), DecodeUsage(o, NO_USAGE)))
  }

  // ---------------------------------------------------------------- by format

  function Encode(f: Format, e: Event): Option<Object> {
    match f
    case ChatCompletions => Some(EncodeChat(e))
    case AnthropicMessages => Some(EncodeAnthropic(e))
    case Responses => EncodeResponses(e)
    case UnknownFormat => None
  }
}
