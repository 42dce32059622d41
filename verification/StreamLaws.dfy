/** What a translated stream keeps: written in any format and read back, it carries the same deltas. */
module StreamLaws {
  import opened Wrappers
  import opened Wire
  import opened Streams
  import opened StreamReading
  import opened Text
  import Sse

  predicate IsDelta(e: Event) { e.TextDelta? || e.ReasoningDelta? }

  /** The events of a stream that does not fail: deltas, usage, snapshots and completion. */
  predicate IsStreamed(e: Event) { !e.ErrorEvent? }

  ghost predicate AreStreamed(es: seq<Event>) { forall e :: e in es ==> IsStreamed(e) }

  /** What survives of a usage record: a missing total is recomputed, and the cache is no longer counted apart. */
  function Reported(u: Usage): Usage {
    u.(netOfCache := false, total := if u.total != 0 then u.total else u.input + u.output)
  }

  /** Anthropic streams carry the two main counts only. */
  function MainCounts(u: Usage): Usage { Usage(u.input, u.output, u.input + u.output, 0, 0, 0, false) }

  /**
   What reading an event's own frame gives. The Responses format names its reasoning event in a way its own decoder
   does not know, and keeps usage for its snapshot. Empty deltas are read as nothing, except by Anthropic's decoder.
   */
  function CarriedBy(f: Format, e: Event): seq<Event> {
    match e
    case TextDelta(t) => if t == "" then [] else [e]
    case ReasoningDelta(r) => if f == Responses || (f == ChatCompletions && r == "") then [] else [e]
    case UsageEvent(u) =>
      if f == Responses then [] else [UsageEvent(if f == ChatCompletions then Reported(u) else MainCounts(u))]
    case _ => []
  }

  function Carried(f: Format, es: seq<Event>): seq<Event> {
    if es == [] then [] else Carried(f, es[..|es| - 1]) + CarriedBy(f, es[|es| - 1])
  }

  /** All usage seen, that of snapshots included, merged in order. */
  function MergedUsage(es: seq<Event>): Usage {
    if es == [] then NO_USAGE
    else
      var before, last := MergedUsage(es[..|es| - 1]), es[|es| - 1];
      if last.UsageEvent? then MergeUsage(before, last.usage)
      else if last.ResponseEvent? then MergeUsage(before, last.response.usage)
      else before
  }

  function UsageOf(e: Event): Option<Usage> {
    if e.UsageEvent? then Some(e.usage) else if e.ResponseEvent? then Some(e.response.usage) else None
  }

  /** The last value other than zero that the events report for one count. */
  function LastReported(es: seq<Event>, count: Usage -> int): int {
    if es == [] then 0
    else
      var u := UsageOf(es[|es| - 1]);
      if u.Some? && count(u.value) != 0 then count(u.value) else LastReported(es[..|es| - 1], count)
  }

  /**
   However sparse later reports are, each merged count is the last one reported, and the total covers every report.
   */
  lemma {:induction false} MergedIsLastReported(es: seq<Event>)
    ensures var m := MergedUsage(es);
            && m.input == LastReported(es, (u: Usage) => u.input)
            && m.output == LastReported(es, (u: Usage) => u.output)
            && m.cachedRead == LastReported(es, (u: Usage) => u.cachedRead)
            && m.cacheWrite == LastReported(es, (u: Usage) => u.cacheWrite)
            && m.reasoning == LastReported(es, (u: Usage) => u.reasoning)
    ensures forall e :: e in es && UsageOf(e).Some? ==> UsageOf(e).value.total <= MergedUsage(es).total
  {
    if es != [] {
      MergedIsLastReported(es[..|es| - 1]);
      assert es == es[..|es| - 1] + [es[|es| - 1]];
    }
  }

  function LastSnapshot(es: seq<Event>): Response {
    if es == [] then NO_RESPONSE
    else if es[|es| - 1].ResponseEvent? then es[|es| - 1].response
    else LastSnapshot(es[..|es| - 1])
  }

  function Texts(es: seq<Event>): string {
    if es == [] then ""
    else Texts(es[..|es| - 1]) + if es[|es| - 1].TextDelta? then es[|es| - 1].text else ""
  }

  // ---------------------------------------------------------------- frame by frame

  /** A payload with neither usage nor an error. */
  ghost predicate Plain(name: string, o: Object) {
    && "usage" !in o && "response" !in o && "message" !in o && "error" !in o
    && name != "error"
    && StringAt(o, "type") !in {"error", "response.failed", "response.incomplete"}
  }

  lemma PlainDispatch(f: Format, name: string, raw: Object)
    requires Plain(name, WithType(name, raw))
    ensures var d := DecodeEvent(f, WithType(name, raw));
            Dispatched(f, false, Frame(name, Payload(raw))) == Step(OptionSeq(d.0), d.1, None)
  {
    hide DecodeUsage, FailureOf, DecodeEvent, WithType;
    assert UsageEvents(WithType(name, raw)) == [];
  }

  lemma ChatDeltaRead(delta: Object, finish: Json)
    ensures Plain("", WithType("", ChatDelta(delta, finish)))
    ensures ObjectsAt(WithType("", ChatDelta(delta, finish)), "choices")
         == Some([map["index" := Num(0), "delta" := Obj(delta), "finish_reason" := finish]])
  {
    var o := WithType("", ChatDelta(delta, finish));
    var choice: Object := map["index" := Num(0), "delta" := Obj(delta), "finish_reason" := finish];
    var items := [Obj(choice)];
    assert o["choices"] == Arr(items);
    assert ObjectsAt(o, "choices").value == [choice];
  }

  lemma ChatDeltaRoundTrip(e: Event)
    requires IsDelta(e)
    ensures EventFrames(ChatCompletions, e) == [Frame("", Payload(EncodeChat(e)))]
    ensures Dispatched(ChatCompletions, false, Frame("", Payload(EncodeChat(e))))
             == Step(CarriedBy(ChatCompletions, e), false, None)
  {
    hide Dispatched, WithType, ObjectsAt, ChatDelta, Plain;
    var delta: Object := if e.TextDelta? then map["role" := Str("assistant"), "content" := Str(e.text)]
                         else map["reasoning_content" := Str(e.reasoning)];
    assert EncodeChat(e) == ChatDelta(delta, Null);
    ChatDeltaRead(delta, Null);
    PlainDispatch(ChatCompletions, "", EncodeChat(e));
    assert OptionSeq(DecodeChat(WithType("", ChatDelta(delta, Null)))) == CarriedBy(ChatCompletions, e);
  }

  lemma AnthropicDeltaRoundTrip(e: Event)
    requires IsDelta(e)
    ensures EventFrames(AnthropicMessages, e) == [Frame("content_block_delta", Payload(EncodeAnthropic(e)))]
    ensures Dispatched(AnthropicMessages, false, Frame("content_block_delta", Payload(EncodeAnthropic(e))))
         == Step(CarriedBy(AnthropicMessages, e), false, None)
  {
    hide Dispatched;
    var o := EncodeAnthropic(e);
    assert WithType("content_block_delta", o) == o;
    PlainDispatch(AnthropicMessages, "content_block_delta", o);
    assert OptionSeq(DecodeAnthropic(o)) == CarriedBy(AnthropicMessages, e);
  }

  function ResponsesType(e: Event): string {
    if e.TextDelta? then "response.output_text.delta" else "response.reasoning.delta"
  }

  lemma ResponsesDeltaRoundTrip(e: Event)
    requires IsDelta(e)
    ensures EventFrames(Responses, e) == [Frame(ResponsesType(e), Payload(EncodeResponses(e).value))]
    ensures Dispatched(Responses, false, Frame(ResponsesType(e), Payload(EncodeResponses(e).value)))
         == Step(CarriedBy(Responses, e), false, None)
  {
    hide Dispatched;
    var o := EncodeResponses(e).value;
    assert WithType(ResponsesType(e), o) == o;
    PlainDispatch(Responses, ResponsesType(e), o);
  }

  // ---------------------------------------------------------------- whole streams

  lemma OneMoreFrame(f: Format, fs: seq<Frame>, frame: Frame, es: seq<Event>, s: Step)
    requires DispatchAll(f, fs) == Outcome(es, false, None) && Dispatched(f, false, frame) == s
    ensures DispatchAll(f, fs + [frame]) == Outcome(es + s.events, s.terminal, s.error)
  {}

  /** A frame that is dispatched without emitting anything, and whether it ends the stream. */
  ghost predicate Silent(f: Format, frame: Frame, ends: bool) {
    Dispatched(f, false, frame) == Step([], ends, None)
  }

  lemma TypedIsSilent(f: Format, kind: string, rest: Object)
    requires kind !in {"", "error", "response.failed", "response.incomplete"}
    requires "error" !in rest && !HasUsage(Typed(kind, rest))
    requires DecodeEvent(f, Typed(kind, rest)).0.None?
    ensures Silent(f, TypedFrame(kind, rest), DecodeEvent(f, Typed(kind, rest)).1)
  {
    hide DecodeUsage, FailureOf, DecodeEvent, HasUsage;
    assert WithType(kind, Typed(kind, rest)) == Typed(kind, rest);
    assert UsageEvents(Typed(kind, rest)) == [];
  }

  predicate ResponsesFraming(kind: string) {
    kind in {"response.created", "response.output_item.added", "response.content_part.added",
             "response.output_text.done", "response.content_part.done", "response.output_item.done"}
  }

  predicate AnthropicFraming(kind: string) {
    kind in {"message_start", "content_block_start", "content_block_stop", "message_delta", "message_stop"}
  }

  predicate DeltaKind(kind: string) {
    kind in {"content_block_delta", "response.output_text.delta", "response.reasoning.delta"}
  }

  /** Frames before the first delta and after the last one say nothing to the reader. */
  lemma ResponsesKindIsSilent(kind: string, rest: Object)
    requires ResponsesFraming(kind)
    requires "error" !in rest && !HasUsage(Typed(kind, rest))
    ensures Silent(Responses, TypedFrame(kind, rest), false)
  {
    hide HasUsage, Silent;
    assert DecodeEvent(Responses, Typed(kind, rest)) == (None, false);
    TypedIsSilent(Responses, kind, rest);
  }

  lemma AnthropicKindIsSilent(kind: string, rest: Object)
    requires AnthropicFraming(kind)
    requires "error" !in rest && !HasUsage(Typed(kind, rest))
    requires DecodeAnthropic(Typed(kind, rest)).None?
    ensures Silent(AnthropicMessages, TypedFrame(kind, rest), kind == "message_stop")
  {
    hide HasUsage, Silent, DecodeAnthropic;
    TypedIsSilent(AnthropicMessages, kind, rest);
  }

  lemma OpeningIsSilent(f: Format, i: nat)
    requires f.Valid() && i < |StartFrames(f)|
    ensures Silent(f, StartFrames(f)[i], false)
  {
    hide Silent, DecodeAnthropic, HasUsage;
    if f == Responses && i == 0 {
      var r := CreatedObject();
      NoUsage(Typed("response.created", map["response" := Obj(r)]));
      ResponsesKindIsSilent("response.created", map["response" := Obj(r)]);
    } else if f == Responses && i == 1 {
      var rest: Object := map["item" := Obj(ItemObject())];
      NoUsage(Typed("response.output_item.added", rest));
      ResponsesKindIsSilent("response.output_item.added", rest);
    } else if f == Responses {
      var rest: Object := map["item_id" := Str("item-translation"), "part" := Obj(PartObject("output_text", ""))];
      NoUsage(Typed("response.content_part.added", rest));
      ResponsesKindIsSilent("response.content_part.added", rest);
    } else if i == 0 {
      var m := MessageObject();
      NoUsage(Typed("message_start", map["message" := Obj(m)]));
      NoDelta(Typed("message_start", map["message" := Obj(m)]));
      AnthropicKindIsSilent("message_start", map["message" := Obj(m)]);
    } else {
      var rest: Object := map["index" := Num(0), "content_block" := Obj(PartObject("text", ""))];
      NoUsage(Typed("content_block_start", rest));
      NoDelta(Typed("content_block_start", rest));
      AnthropicKindIsSilent("content_block_start", rest);
    }
  }

  lemma NoUsage(o: Object)
    requires "usage" !in o
    requires "response" in o ==> o["response"].Obj? && "usage" !in o["response"].fields
    requires "message" in o ==> o["message"].Obj? && "usage" !in o["message"].fields
    ensures !HasUsage(o)
  {}

  lemma NoDelta(o: Object)
    requires "delta" !in o
    ensures DecodeAnthropic(o).None?
  {}

  lemma {:induction false} OpeningFrames(f: Format, n: nat)
    requires f.Valid() && n <= |StartFrames(f)|
    ensures DispatchAll(f, StartFrames(f)[..n]) == Outcome([], false, None)
  {
    hide StartFrames, Dispatched;
    if n > 0 {
      OpeningFrames(f, n - 1);
      OpeningIsSilent(f, n - 1);
      OneMoreFrame(f, StartFrames(f)[..n - 1], StartFrames(f)[n - 1], [], Step([], false, None));
      assert StartFrames(f)[..n] == StartFrames(f)[..n - 1] + [StartFrames(f)[n - 1]];
    }
  }

  lemma {:induction false} DeltaFrames(f: Format, es: seq<Event>)
    requires f.Valid() && AreStreamed(es)
    ensures DispatchAll(f, StartFrames(f) + AllEventFrames(f, es)) == Outcome(Carried(f, es), false, None)
  {
    hide StartFrames, EventFrames, Dispatched, IsStreamed, CarriedBy;
    if es == [] {
      OpeningFrames(f, |StartFrames(f)|);
      assert StartFrames(f) + [] == StartFrames(f)[..|StartFrames(f)|];
    } else {
      hide DispatchAll;
      var init, e := es[..|es| - 1], es[|es| - 1];
      DeltaFrames(f, init);
      EventRoundTrip(f, e);
      var before := StartFrames(f) + AllEventFrames(f, init);
      if EventFrames(f, e) == [] {
        assert before + [] == before && Carried(f, init) + [] == Carried(f, init);
        assert StartFrames(f) + (AllEventFrames(f, init) + []) == before;
      } else {
        OneMoreFrame(f, before, EventFrames(f, e)[0], Carried(f, init), Step(CarriedBy(f, e), false, None));
        assert EventFrames(f, e) == [EventFrames(f, e)[0]];
        assert StartFrames(f) + AllEventFrames(f, es) == before + [EventFrames(f, e)[0]];
      }
    }
  }

  /** An event's own frame, if it has one, read back. */
  lemma EventRoundTrip(f: Format, e: Event)
    requires f.Valid() && IsStreamed(e)
    ensures |EventFrames(f, e)| <= 1
    ensures if EventFrames(f, e) == [] then CarriedBy(f, e) == []
            else Dispatched(f, false, EventFrames(f, e)[0]) == Step(CarriedBy(f, e), false, None)
  {
    hide Dispatched, EventFrames;
    if e.UsageEvent? {
      UsageFrame(f, e.usage);
    } else if IsDelta(e) {
      match f
      case ChatCompletions => ChatDeltaRoundTrip(e);
      case AnthropicMessages => AnthropicDeltaRoundTrip(e);
      case Responses => ResponsesDeltaRoundTrip(e);
    } else {
      HeldBack(f, e);
    }
  }

  lemma HeldBack(f: Format, e: Event)
    requires e.ResponseEvent? || e.Complete?
    ensures EventFrames(f, e) == []
  {}

  lemma UsageFrame(f: Format, u: Usage)
    requires f.Valid()
    ensures var frames := EventFrames(f, UsageEvent(u));
            if f == Responses then frames == []
            else |frames| == 1 && Dispatched(f, false, frames[0]) == Step(CarriedBy(f, UsageEvent(u)), false, None)
  {
    hide Dispatched, EncodeChat, EncodeAnthropic;
    match f
    case ChatCompletions => ChatUsageDispatch(u);
    case AnthropicMessages => AnthropicUsageDispatch(u);
    case Responses =>
  }

  /** A payload that reports usage and nothing else. */
  lemma UsageDispatch(f: Format, name: string, raw: Object, u: Usage)
    requires var o := WithType(name, raw);
             HasUsage(o) && DecodeUsage(o, NO_USAGE) == u && !IsFailure(name, o) && DecodeEvent(f, o) == (None, false)
    ensures Dispatched(f, false, Frame(name, Payload(raw))) == Step([UsageEvent(u)], false, None)
  {}

  lemma ChatUsageDispatch(u: Usage)
    ensures Dispatched(ChatCompletions, false, Frame("", Payload(EncodeChat(UsageEvent(u)))))
             == Step([UsageEvent(Reported(u))], false, None)
  {
    hide Dispatched, DecodeUsage, ChatUsage, Reported;
    var raw := ChatChunk([])["usage" := Obj(ChatUsage(u))];
    var o := WithType("", raw);
    assert o["usage"] == Obj(ChatUsage(u)) && o["choices"] == Arr([]);
    assert UsagePayload(o) == o && ObjectAt(o, "usage") == Some(ChatUsage(u));
    ChatUsageRoundTrip(o, u);
    assert ObjectsAt(o, "choices").value == [];
    UsageDispatch(ChatCompletions, "", raw, Reported(u));
  }

  lemma AnthropicUsageDispatch(u: Usage)
    ensures StringAt(EncodeAnthropic(UsageEvent(u)), "type") == "message_delta"
    ensures Dispatched(AnthropicMessages, false, Frame("message_delta", Payload(EncodeAnthropic(UsageEvent(u)))))
         == Step([UsageEvent(MainCounts(u))], false, None)
  {
    hide Dispatched, DecodeUsage;
    var counts: Object := map["input_tokens" := Num(u.input), "output_tokens" := Num(u.output)];
    var raw := Typed("message_delta", map["delta" := Obj(map[]), "usage" := Obj(counts)]);
    assert raw == EncodeAnthropic(UsageEvent(u));
    assert WithType("message_delta", raw) == raw;
    assert UsagePayload(raw) == raw && ObjectAt(raw, "usage") == Some(counts);
    AnthropicUsageRoundTrip(raw, u);
    UsageDispatch(AnthropicMessages, "message_delta", raw, MainCounts(u));
  }

  lemma {:induction false} DeltasRemembered(f: Format, es: seq<Event>)
    requires AreStreamed(es)
    ensures AbsorbAll(f, es) == Memory(LastSnapshot(es).(usage := MergedUsage(es)),
                                       if f == Responses then Texts(es) else "")
  {
    hide MergeUsage;
    if es != [] {
      DeltasRemembered(f, es[..|es| - 1]);
      assert IsStreamed(es[|es| - 1]);
    }
  }

  /** The closing frames but the last one say nothing to the reader either. */
  lemma ClosingIsSilent(f: Format, r: Response, i: nat)
    requires f.Valid() && i + 1 < |EndFrames(f, r)|
    ensures Silent(f, EndFrames(f, r)[i], false)
  {
    match f
    case ChatCompletions => ChatClosing(r);
    case AnthropicMessages => AnthropicClosing(r, i);
    case Responses => ResponsesClosing(r, i);
  }

  lemma ChatClosing(r: Response)
    ensures |EndFrames(ChatCompletions, r)| == 2 && Silent(ChatCompletions, EndFrames(ChatCompletions, r)[0], false)
  {
    hide Dispatched, ChatDelta, WithType, Plain;
    ChatDeltaRead(map[], Str("stop"));
    PlainDispatch(ChatCompletions, "", ChatDelta(map[], Str("stop")));
  }

  lemma AnthropicClosing(r: Response, i: nat)
    requires i < 2
    ensures |EndFrames(AnthropicMessages, r)| == 3
            && Silent(AnthropicMessages, EndFrames(AnthropicMessages, r)[i], false)
  {
    hide Silent, HasUsage;
    var stop: Object := map["index" := Num(0)];
    var delta: Object := map["delta" := Obj(map["stop_reason" := Str("end_turn")])];
    NoUsage(Typed("content_block_stop", stop));
    NoUsage(Typed("message_delta", delta));
    assert DecodeAnthropic(Typed("message_delta", delta)).None?;
    AnthropicKindIsSilent("content_block_stop", stop);
    AnthropicKindIsSilent("message_delta", delta);
  }

  lemma ResponsesClosing(r: Response, i: nat)
    requires i < 3
    ensures |EndFrames(Responses, r)| == 4 && Silent(Responses, EndFrames(Responses, r)[i], false)
  {
    hide Silent, HasUsage, EncodeResponse;
    var text: Object := map["item_id" := Str("item-translation"), "text" := Str(r.text)];
    var part: Object := map["item_id" := Str("item-translation")];
    var item: Object := map["item" := Obj(ItemObject())];
    NoUsage(Typed("response.output_text.done", text));
    NoUsage(Typed("response.content_part.done", part));
    NoUsage(Typed("response.output_item.done", item));
    ResponsesKindIsSilent("response.output_text.done", text);
    ResponsesKindIsSilent("response.content_part.done", part);
    ResponsesKindIsSilent("response.output_item.done", item);
  }

  lemma {:induction false} ClosingFrames(f: Format, fs: seq<Frame>, es: seq<Event>, r: Response, n: nat)
    requires f.Valid() && n < |EndFrames(f, r)| && DispatchAll(f, fs) == Outcome(es, false, None)
    ensures DispatchAll(f, fs + EndFrames(f, r)[..n]) == Outcome(es, false, None)
  {
    hide EndFrames, DispatchAll, Dispatched;
    if n == 0 {
      assert fs + EndFrames(f, r)[..0] == fs;
    } else {
      ClosingFrames(f, fs, es, r, n - 1);
      ClosingIsSilent(f, r, n - 1);
      OneMoreFrame(f, fs + EndFrames(f, r)[..n - 1], EndFrames(f, r)[n - 1], es, Step([], false, None));
      assert fs + EndFrames(f, r)[..n] == fs + EndFrames(f, r)[..n - 1] + [EndFrames(f, r)[n - 1]];
    }
  }

  /** What the last frame of a stream adds: the Responses snapshot and its usage. */
  function FinalEvents(f: Format, r: Response): seq<Event> {
    if f == Responses then [UsageEvent(Reported(r.usage)), ResponseEvent(Snapshot(r))] else []
  }

  lemma LastFrameEnds(f: Format, r: Response)
    requires f.Valid()
    ensures |EndFrames(f, r)| > 0
            && Dispatched(f, false, EndFrames(f, r)[|EndFrames(f, r)| - 1]) == Step(FinalEvents(f, r), true, None)
  {
    hide EncodeResponse, Snapshot, Reported, EncodeChat;
    match f
    case ChatCompletions =>
    case AnthropicMessages =>
      hide Dispatched;
      NoUsage(Typed("message_stop", map[]));
      AnthropicKindIsSilent("message_stop", map[]);
    case Responses =>
      hide Dispatched;
      CompletedDispatch(r);
  }

  lemma StreamEnds(f: Format, fs: seq<Frame>, es: seq<Event>, r: Response)
    requires f.Valid() && DispatchAll(f, fs) == Outcome(es, false, None)
    ensures DispatchAll(f, fs + EndFrames(f, r)) == Outcome(es + FinalEvents(f, r), true, None)
  {
    hide EndFrames, DispatchAll, Dispatched, FinalEvents;
    LastFrameEnds(f, r);
    var ends := EndFrames(f, r);
    var n := |ends| - 1;
    ClosingFrames(f, fs, es, r, n);
    OneMoreFrame(f, fs + ends[..n], ends[n], es, Step(FinalEvents(f, r), true, None));
    assert fs + ends == fs + ends[..n] + [ends[n]];
  }

  lemma LeftField(left: Object, right: Object, key: string)
    requires key !in right
    ensures (key in left + right <==> key in left)
    ensures SetNum(0, left + right, key) == SetNum(0, left, key) && Details(left + right, key) == Details(left, key)
  {}

  lemma RightField(left: Object, right: Object, key: string)
    requires key !in left
    ensures Details(left + right, key) == Details(right, key)
  {}

  lemma NestedField(key: string, o: Object)
    ensures Nested(key, o).Keys <= {key} && Details(Nested(key, o), key) == o
  {}

  /** Looking up a union of fields and two nested objects. */
  lemma UnionAt(base: Object, i: string, a: Object, o: string, b: Object, key: string)
    requires i != o && i !in base && o !in base
    ensures var v := base + Nested(i, a) + Nested(o, b);
            && Details(v, i) == a && Details(v, o) == b
            && (key != i && key != o ==> (key in v <==> key in base) && SetNum(0, v, key) == SetNum(0, base, key))
  {
    hide Details, SetNum, Nested;
    NestedField(i, a);
    NestedField(o, b);
    var inner := base + Nested(i, a);
    RightField(base, Nested(i, a), i);
    LeftField(inner, Nested(o, b), i);
    RightField(inner, Nested(o, b), o);
    if key != i && key != o {
      LeftField(base, Nested(i, a), key);
      LeftField(inner, Nested(o, b), key);
    }
  }

  ghost predicate TopFields(v: Object, u: Usage) {
    && SetNum(0, v, "input_tokens") == u.input && SetNum(0, v, "output_tokens") == u.output
       && SetNum(0, v, "total_tokens") == u.total
    && NothingElse(v)
  }

  ghost predicate NothingElse(v: Object) {
    && "prompt_tokens" !in v && "completion_tokens" !in v && "prompt_tokens_details" !in v
       && "completion_tokens_details" !in v
    && "cached_tokens" !in v && "cache_read_input_tokens" !in v && "cache_creation_input_tokens" !in v
       && "cache_write_tokens" !in v
    && "reasoning_tokens" !in v
  }

  ghost predicate InputFields(d: Object, u: Usage) {
    && SetNum(0, d, "cached_tokens") == u.cachedRead && SetNum(0, d, "cache_write_tokens") == u.cacheWrite
    && "cache_read_input_tokens" !in d
  }

  ghost predicate OutputFields(d: Object, u: Usage) {
    SetNum(0, d, "reasoning_tokens") == u.reasoning && "thinking_tokens" !in d
  }

  lemma TotalsFields(u: Usage)
    ensures TopFields(UsageTotals(u), u)
    ensures "input_tokens_details" != "output_tokens_details"
    ensures "input_tokens_details" !in UsageTotals(u) && "output_tokens_details" !in UsageTotals(u)
  {}

  lemma SameTopFields(v: Object, base: Object, u: Usage)
    requires TopFields(base, u)
    requires forall key :: key != "input_tokens_details" && key != "output_tokens_details"
               ==> (key in v <==> key in base) && SetNum(0, v, key) == SetNum(0, base, key)
    ensures TopFields(v, u)
  {}

  lemma UsageFields(u: Usage)
    ensures TopFields(ResponsesUsage(u), u)
    ensures Details(ResponsesUsage(u), "input_tokens_details") == InputDetails(u)
    ensures Details(ResponsesUsage(u), "output_tokens_details") == OutputDetails(u)
  {
    hide *;
    var i, o := "input_tokens_details", "output_tokens_details";
    var base, v := UsageTotals(u), ResponsesUsage(u);
    TotalsFields(u);
    UsageUnion(u);
    forall key
      ensures Details(v, i) == InputDetails(u) && Details(v, o) == OutputDetails(u)
      ensures key != i && key != o ==> (key in v <==> key in base) && SetNum(0, v, key) == SetNum(0, base, key)
    { UnionAt(base, i, InputDetails(u), o, OutputDetails(u), key); }
    SameTopFields(v, base, u);
  }

  lemma UsageUnion(u: Usage)
    ensures ResponsesUsage(u)
         == UsageTotals(u) + Nested("input_tokens_details", InputDetails(u))
            + Nested("output_tokens_details", OutputDetails(u))
  {}

  lemma DetailFields(u: Usage)
    ensures InputFields(InputDetails(u), u) && OutputFields(OutputDetails(u), u)
  {}

  lemma DecodeFields(o: Object, v: Object, input: Object, output: Object, u: Usage)
    requires ObjectAt(UsagePayload(o), "usage") == Some(v)
    requires Details(v, "prompt_tokens_details") == map[] && Details(v, "completion_tokens_details") == map[]
    requires Details(v, "input_tokens_details") == input && Details(v, "output_tokens_details") == output
    requires TopFields(v, u) && InputFields(input, u) && OutputFields(output, u)
    ensures DecodeUsage(o, NO_USAGE) == Reported(u)
  {}

  // ---------------------------------------------------------------- usage in Chat and Anthropic streams

  /** What the decoder finds in a Chat usage record. */
  ghost predicate ChatFields(v: Object, u: Usage) {
    && SetNum(0, v, "prompt_tokens") == u.input && SetNum(0, v, "completion_tokens") == u.output
       && SetNum(0, v, "total_tokens") == u.total
    && NoOtherChatField(v)
  }

  ghost predicate NoOtherChatField(v: Object) {
    && "input_tokens" !in v && "output_tokens" !in v && "input_tokens_details" !in v && "output_tokens_details" !in v
    && "cached_tokens" !in v && "cache_read_input_tokens" !in v && "cache_creation_input_tokens" !in v
       && "cache_write_tokens" !in v
    && "reasoning_tokens" !in v
  }

  lemma ChatTotalsFields(u: Usage)
    ensures ChatFields(ChatTotals(u), u)
    ensures "prompt_tokens_details" != "completion_tokens_details"
    ensures "prompt_tokens_details" !in ChatTotals(u) && "completion_tokens_details" !in ChatTotals(u)
  {}

  lemma SameChatFields(v: Object, base: Object, u: Usage)
    requires ChatFields(base, u)
    requires forall key :: key != "prompt_tokens_details" && key != "completion_tokens_details"
               ==> (key in v <==> key in base) && SetNum(0, v, key) == SetNum(0, base, key)
    ensures ChatFields(v, u)
  {}

  lemma ChatUsageUnion(u: Usage)
    ensures ChatUsage(u)
         == ChatTotals(u) + Nested("prompt_tokens_details", InputDetails(u))
            + Nested("completion_tokens_details", OutputDetails(u))
  {}

  lemma ChatUsageFields(u: Usage)
    ensures ChatFields(ChatUsage(u), u)
    ensures Details(ChatUsage(u), "prompt_tokens_details") == InputDetails(u)
    ensures Details(ChatUsage(u), "completion_tokens_details") == OutputDetails(u)
  {
    hide *;
    var i, o := "prompt_tokens_details", "completion_tokens_details";
    var base, v := ChatTotals(u), ChatUsage(u);
    ChatTotalsFields(u);
    ChatUsageUnion(u);
    forall key
      ensures Details(v, i) == InputDetails(u) && Details(v, o) == OutputDetails(u)
      ensures key != i && key != o ==> (key in v <==> key in base) && SetNum(0, v, key) == SetNum(0, base, key)
    { UnionAt(base, i, InputDetails(u), o, OutputDetails(u), key); }
    SameChatFields(v, base, u);
  }

  lemma ChatDecode(o: Object, v: Object, prompt: Object, completion: Object, u: Usage)
    requires ObjectAt(UsagePayload(o), "usage") == Some(v)
    requires Details(v, "input_tokens_details") == map[] && Details(v, "output_tokens_details") == map[]
    requires Details(v, "prompt_tokens_details") == prompt && Details(v, "completion_tokens_details") == completion
    requires ChatFields(v, u) && InputFields(prompt, u) && OutputFields(completion, u)
    ensures DecodeUsage(o, NO_USAGE) == Reported(u)
  {}

  /** A usage record written into a Chat chunk is read back. */
  lemma ChatUsageRoundTrip(o: Object, u: Usage)
    requires ObjectAt(UsagePayload(o), "usage") == Some(ChatUsage(u))
    ensures DecodeUsage(o, NO_USAGE) == Reported(u)
  {
    var v := ChatUsage(u);
    ChatUsageFields(u);
    DetailFields(u);
    hide DecodeUsage, ChatUsage, UsagePayload, SetNum, Reported, InputFields, OutputFields, InputDetails, OutputDetails;
    assert Details(v, "input_tokens_details") == map[] && Details(v, "output_tokens_details") == map[];
    ChatDecode(o, v, InputDetails(u), OutputDetails(u), u);
  }

  lemma AnthropicUsageRoundTrip(o: Object, u: Usage)
    requires ObjectAt(UsagePayload(o), "usage")
              == Some(map["input_tokens" := Num(u.input), "output_tokens" := Num(u.output)])
    ensures DecodeUsage(o, NO_USAGE) == MainCounts(u)
  {
    var v: Object := map["input_tokens" := Num(u.input), "output_tokens" := Num(u.output)];
    hide UsagePayload, DecodeUsage;
    assert Details(v, "prompt_tokens_details") == map[] && Details(v, "completion_tokens_details") == map[];
    assert Details(v, "input_tokens_details") == map[] && Details(v, "output_tokens_details") == map[];
    MainCountsDecode(o, v, u);
  }

  lemma MainCountsDecode(o: Object, v: Object, u: Usage)
    requires ObjectAt(UsagePayload(o), "usage") == Some(v)
    requires v == map["input_tokens" := Num(u.input), "output_tokens" := Num(u.output)]
    requires Details(v, "prompt_tokens_details") == map[] && Details(v, "completion_tokens_details") == map[]
    requires Details(v, "input_tokens_details") == map[] && Details(v, "output_tokens_details") == map[]
    ensures DecodeUsage(o, NO_USAGE) == MainCounts(u)
  {}

  /** A usage record written into a Responses snapshot is read back. */
  lemma UsageRoundTrip(o: Object, u: Usage)
    requires ObjectAt(UsagePayload(o), "usage") == Some(ResponsesUsage(u))
    ensures DecodeUsage(o, NO_USAGE) == Reported(u)
  {
    var v := ResponsesUsage(u);
    UsageFields(u);
    DetailFields(u);
    hide DecodeUsage, ResponsesUsage, UsagePayload, SetNum, Reported, InputFields, OutputFields, InputDetails,
         OutputDetails;
    assert Details(v, "prompt_tokens_details") == map[] && Details(v, "completion_tokens_details") == map[];
    DecodeFields(o, v, InputDetails(u), OutputDetails(u), u);
  }

  /** What the reader makes of the final Responses snapshot. */
  function Snapshot(r: Response): Response {
    Response(ValueOr(r.id, "resp-translation"), r.model, [Message("assistant", [r.text], [])], r.text, "stop",
             Reported(r.usage))
  }

  lemma ContentRead(role: string, text: string)
    ensures var content := Arr([Obj(PartObject("output_text", text))]);
            var o := Typed("message", map["role" := Str(role), "content" := content]);
            ContentTexts(o) == [text] && StringAt(o, "role") == role
  {
    var block := Typed("output_text", map["text" := Str(text)]);
    var o := Typed("message", map["role" := Str(role), "content" := Arr([Obj(block)])]);
    var items := [Obj(block)];
    assert o["content"] == Arr(items);
    assert ObjectsAt(o, "content").value == [block];
    assert ToLower("output_text") == "output_text";
    assert BlockTexts([block]) == [text];
  }

  function SnapshotItem(text: string): Object {
    Typed("message", map["role" := Str("assistant"), "content" := Arr([Obj(PartObject("output_text", text))])])
  }

  lemma SnapshotFields(r: Response)
    ensures var o := EncodeResponse(r);
            && "output" in o && o["output"] == Arr([Obj(SnapshotItem(r.text))])
            && StringAt(o, "id") == ValueOr(r.id, "resp-translation") && StringAt(o, "model") == r.model
            && StringAt(o, "status") == "completed" && StringAt(o, "output_text") == r.text
            && "usage" in o && o["usage"] == Obj(ResponsesUsage(r.usage))
  {
    hide ResponsesUsage, ValueOr;
  }

  lemma SnapshotMessages(o: Object, text: string)
    requires "output" in o && o["output"] == Arr([Obj(SnapshotItem(text))])
    ensures OutputMessages(ObjectsAt(o, "output").GetOr([])) == [Message("assistant", [text], [])]
    ensures MessagesText([Message("assistant", [text], [])]) == text
  {
    hide ContentTexts;
    var item := SnapshotItem(text);
    ContentRead("assistant", text);
    assert ContentTexts(item) == [text] && StringAt(item, "role") == "assistant";
    hide SnapshotItem;
    var items := [Obj(item)];
    assert ObjectsAt(o, "output").value == [item];
    assert OutputMessages([item]) == [Message("assistant", [text], [])];
    assert JoinTexts([text]) == text;
  }

  lemma SnapshotUsage(r: Response)
    ensures DecodeUsage(EncodeResponse(r), NO_USAGE) == Reported(r.usage)
  {
    SnapshotFields(r);
    hide EncodeResponse, ResponsesUsage, DecodeUsage, Reported, ValueOr, SnapshotItem;
    UsageRoundTrip(EncodeResponse(r), r.usage);
  }

  lemma SnapshotRead(r: Response)
    ensures DecodeResponse(EncodeResponse(r)) == Some(Snapshot(r))
  {
    var o := EncodeResponse(r);
    SnapshotFields(r);
    SnapshotMessages(o, r.text);
    SnapshotUsage(r);
    hide EncodeResponse, OutputMessages, ObjectsAt, MessagesText, DecodeUsage, ResponsesUsage, SnapshotItem, Reported,
         ValueOr,
         StringAt, UsagePayload, ObjectAt;
  }

  function Completed(r: Response): Object { Typed("response.completed", map["response" := Obj(EncodeResponse(r))]) }

  lemma CompletedUsage(r: Response)
    ensures UsageEvents(Completed(r)) == [UsageEvent(Reported(r.usage))]
  {
    SnapshotFields(r);
    hide EncodeResponse, ResponsesUsage, DecodeUsage, Reported;
    var o := Completed(r);
    assert ObjectAt(o, "response") == Some(EncodeResponse(r));
    assert UsagePayload(o) == EncodeResponse(r);
    UsageRoundTrip(o, r.usage);
  }

  lemma CompletedDispatch(r: Response)
    ensures Dispatched(Responses, false, TypedFrame("response.completed", map["response" := Obj(EncodeResponse(r))]))
         == Step([UsageEvent(Reported(r.usage)), ResponseEvent(Snapshot(r))], true, None)
  {
    var o := Completed(r);
    CompletedUsage(r);
    SnapshotRead(r);
    hide EncodeResponse, UsageEvents, Snapshot, Reported;
    assert DecodeResponse(o) == DecodeResponse(EncodeResponse(r)) == Some(Snapshot(r));
    assert DecodeEvent(Responses, o) == (Some(ResponseEvent(Snapshot(r))), true);
    hide DecodeEvent, DecodeResponse;
    assert WithType("response.completed", o) == o;
    assert !IsFailure("response.completed", o);
  }

  /**
   The snapshot a Responses stream ends with: the last one seen, the whole text unless it has its own, and all
   usage.
   */
  function WholeResponse(es: seq<Event>): Response {
    var r := LastSnapshot(es);
    r.(text := if r.text != "" then r.text else Texts(es), usage := MergedUsage(es))
  }

  /**
   Events that report no failure, written in a format and read back in it: exactly what the format carries, in order,
   and a clean terminal end; the Responses snapshot is the last one seen, with the whole text and all usage.
   */
  lemma TranslationKeepsEvents(f: Format, es: seq<Event>)
    requires f.Valid() && AreStreamed(es)
    ensures DispatchAll(f, Transcript(f, es)) == Outcome(Carried(f, es) + FinalEvents(f, WholeResponse(es)), true, None)
  {
    hide DispatchAll, StartFrames, EndFrames, AllEventFrames, AbsorbAll, Snapshot, Reported, MergedUsage, Texts;
    DeltaFrames(f, es);
    DeltasRemembered(f, es);
    StreamEnds(f, StartFrames(f) + AllEventFrames(f, es), Carried(f, es), FinalResponse(AbsorbAll(f, es)));
  }

  lemma {:induction false} TextsInTurn(a: seq<Event>, b: seq<Event>)
    ensures Texts(a + b) == Texts(a) + Texts(b)
  {
    if b == [] {
      assert a + b == a;
    } else {
      var init, last := b[..|b| - 1], b[|b| - 1];
      TextsInTurn(a, init);
      assert (a + b)[..|a + b| - 1] == a + init && (a + b)[|a + b| - 1] == last;
      var text := if last.TextDelta? then last.text else "";
      assert Texts(a + b) == (Texts(a) + Texts(init)) + text == Texts(a) + (Texts(init) + text);
    }
  }

  /** No format loses streamed text on the way. */
  lemma {:induction false} CarriedTexts(f: Format, es: seq<Event>)
    requires f.Valid()
    ensures Texts(Carried(f, es)) == Texts(es)
  {
    if es != [] {
      var init, last := es[..|es| - 1], es[|es| - 1];
      CarriedTexts(f, init);
      TextsInTurn(Carried(f, init), CarriedBy(f, last));
      OneText(f, last);
      hide CarriedBy;
    }
  }

  lemma OneText(f: Format, e: Event)
    requires f.Valid()
    ensures Texts(CarriedBy(f, e)) == if e.TextDelta? then e.text else ""
  {
    var read := CarriedBy(f, e);
    if read != [] { assert read[..0] == []; }
  }

  /**
   The text of a stream, as far as deltas or a snapshot tell it, reaches a Chat or Anthropic client exactly if the last
   snapshot says no more than the deltas did; a Responses client always has it in its snapshot.
   */
  lemma TextArrivesExactly(c: Format, es: seq<Event>)
    requires c.Valid() && AreStreamed(es)
    ensures var read := DispatchAll(c, Transcript(c, es)).events;
            if c == Responses then LastSnapshot(read).text == WholeResponse(es).text
            else Texts(read) == WholeResponse(es).text <==>
                   LastSnapshot(es).text == "" || LastSnapshot(es).text == Texts(es)
  {
    hide DispatchAll, Transcript, Reported, MergedUsage, Carried;
    TranslationKeepsEvents(c, es);
    CarriedTexts(c, es);
    if c == Responses {
      var read := Carried(c, es) + FinalEvents(c, WholeResponse(es));
      assert read[|read| - 1] == ResponseEvent(Snapshot(WholeResponse(es)));
    } else {
      assert Carried(c, es) + [] == Carried(c, es);
    }
  }

  lemma {:induction false} TextsAreCarried(f: Format, es: seq<Event>)
    requires forall e :: e in es ==> e.TextDelta? && e.text != ""
    ensures Carried(f, es) == es && LastSnapshot(es) == NO_RESPONSE && MergedUsage(es) == NO_USAGE
  {
    if es != [] {
      var init, last := es[..|es| - 1], es[|es| - 1];
      assert last in es && es == init + [last] && forall e :: e in init ==> e in es;
      TextsAreCarried(f, init);
      assert CarriedBy(f, last) == [last];
      hide CarriedBy, MergeUsage;
    }
  }

  /**
   Text deltas survive in every format, and their concatenation is the text of the Responses snapshot; the stream
   reads as complete unless Chat or Anthropic got no delta at all.
   */
  lemma TranslationKeepsText(f: Format, es: seq<Event>)
    requires f.Valid() && forall e :: e in es ==> e.TextDelta? && e.text != ""
    ensures var read := DispatchAll(f, Transcript(f, es));
            && read.events == es + (if f == Responses
                                    then [UsageEvent(NO_USAGE),
                                          ResponseEvent(Snapshot(NO_RESPONSE.(text := Texts(es))))] else [])
            && (Verdict(read, false) == None <==> es != [] || f == Responses)
  {
    hide DispatchAll, Transcript, Snapshot, MergedUsage;
    TranslationKeepsEvents(f, es);
    TextsAreCarried(f, es);
  }

  // ---------------------------------------------------------------- down to bytes

  /** The JSON library as far as a stream needs it: one non-empty line per object, read back as the same object. */
  ghost predicate Lawful(print_: Object -> string, parse: string -> Option<Object>) {
    forall o ::
      && parse(print_(o)) == Some(o)
      && Sse.SingleLine(print_(o)) && Trimmed(print_(o)) && print_(o) != "" && print_(o) != "[DONE]"
  }

  function OnWire(print_: Object -> string, frame: Frame): Sse.Frame {
    Sse.Frame(frame.name, match frame.data case Payload(o) => print_(o) case Done => "[DONE]" case _ => "")
  }

  function OffWire(parse: string -> Option<Object>, frame: Sse.Frame): Frame {
    Frame(frame.name,
          if frame.data == "" then Blank
          else if frame.data == "[DONE]" then Done
          else if parse(frame.data).Some? then Payload(parse(frame.data).value) else Garbage)
  }

  function AllOnWire(print_: Object -> string, frames: seq<Frame>): seq<Sse.Frame> {
    seq(|frames|, i requires 0 <= i < |frames| => OnWire(print_, frames[i]))
  }

  function AllOffWire(parse: string -> Option<Object>, frames: seq<Sse.Frame>): seq<Frame> {
    seq(|frames|, i requires 0 <= i < |frames| => OffWire(parse, frames[i]))
  }

  predicate PlainName(name: string) { Sse.SingleLine(name) && |name| < 100 }

  predicate Writable(frame: Frame) {
    PlainName(frame.name) && (frame.data.Payload? || frame.data.Done?)
  }

  lemma FrameSurvives(print_: Object -> string, parse: string -> Option<Object>, frame: Frame)
    requires Lawful(print_, parse) && Writable(frame)
    requires |OnWire(print_, frame).data| + 6 < Sse.SCANNER_LIMIT
    ensures Sse.Printable(OnWire(print_, frame)) && OffWire(parse, OnWire(print_, frame)) == frame
  {}

  lemma ResponsesFramingIsPlain(kind: string)
    requires ResponsesFraming(kind)
    ensures PlainName(kind)
  {}

  lemma AnthropicFramingIsPlain(kind: string)
    requires AnthropicFraming(kind)
    ensures PlainName(kind)
  {}

  lemma DeltaKindIsPlain(kind: string)
    requires DeltaKind(kind)
    ensures PlainName(kind)
  {}

  lemma OpeningIsWritable(f: Format)
    ensures forall x :: x in StartFrames(f) ==> Writable(x)
  {
    hide PlainName;
    forall x | x in StartFrames(f) ensures Writable(x) {
      if f == Responses {
        assert x.name in ["response.created", "response.output_item.added", "response.content_part.added"];
        ResponsesFramingIsPlain(x.name);
      } else {
        assert x.name in ["message_start", "content_block_start"];
        AnthropicFramingIsPlain(x.name);
      }
    }
  }

  lemma EventIsWritable(f: Format, e: Event)
    requires IsStreamed(e)
    ensures forall x :: x in EventFrames(f, e) ==> Writable(x)
  {
    hide PlainName;
    if e.ResponseEvent? || e.Complete? {
      HeldBack(f, e);
      return;
    }
    match f
    case ChatCompletions => assert PlainName("") by { EmptyIsPlain(); }
    case AnthropicMessages =>
      if e.UsageEvent? {
        AnthropicUsageDispatch(e.usage);
        AnthropicFramingIsPlain("message_delta");
      } else {
        assert StringAt(EncodeAnthropic(e), "type") == "content_block_delta";
        DeltaKindIsPlain("content_block_delta");
      }
    case Responses =>
      if !e.UsageEvent? {
        assert StringAt(EncodeResponses(e).value, "type") == ResponsesType(e);
        DeltaKindIsPlain(ResponsesType(e));
      }
    case UnknownFormat =>
  }

  lemma EmptyIsPlain()
    ensures PlainName("")
  {}

  lemma EndIsWritable(f: Format, r: Response)
    ensures forall x :: x in EndFrames(f, r) ==> Writable(x)
  {
    hide EncodeResponse, EncodeChat, PlainName;
    EmptyIsPlain();
    match f
    case ChatCompletions =>
    case AnthropicMessages =>
      assert StringAt(EncodeAnthropic(Complete("")), "type") == "message_stop";
      AnthropicFramingIsPlain("content_block_stop");
      AnthropicFramingIsPlain("message_delta");
      AnthropicFramingIsPlain("message_stop");
    case Responses =>
      assert StringAt(EncodeResponses(ResponseEvent(r)).value, "type") == "response.completed";
      ResponsesFramingIsPlain("response.output_text.done");
      ResponsesFramingIsPlain("response.content_part.done");
      ResponsesFramingIsPlain("response.output_item.done");
      assert PlainName("response.completed") by { CompletedIsPlain(); }
    case UnknownFormat =>
  }

  lemma CompletedIsPlain()
    ensures PlainName("response.completed")
  {}

  lemma {:induction false} EventsAreWritable(f: Format, es: seq<Event>)
    requires AreStreamed(es)
    ensures forall x :: x in AllEventFrames(f, es) ==> Writable(x)
  {
    hide EventFrames, Writable, IsStreamed;
    if es != [] {
      EventsAreWritable(f, es[..|es| - 1]);
      EventIsWritable(f, es[|es| - 1]);
    }
  }

  lemma TranscriptIsWritable(f: Format, es: seq<Event>)
    requires AreStreamed(es)
    ensures forall x :: x in Transcript(f, es) ==> Writable(x)
  {
    hide StartFrames, AllEventFrames, EndFrames, Writable;
    OpeningIsWritable(f);
    EventsAreWritable(f, es);
    EndIsWritable(f, FinalResponse(AbsorbAll(f, es)));
  }

  /**
   From events to bytes and back: the printed transcript, scanned line by line and parsed, dispatches the
   carried events in order, as long as no line reaches the scanner's limit.
   */
  lemma EventsSurviveTheWire(print_: Object -> string, parse: string -> Option<Object>, f: Format, es: seq<Event>)
    requires Lawful(print_, parse) && f.Valid() && AreStreamed(es)
    requires forall x :: x in AllOnWire(print_, Transcript(f, es)) ==> |x.data| + 6 < Sse.SCANNER_LIMIT
    ensures var read := Sse.ReadSpec(Sse.PrintFrames(AllOnWire(print_, Transcript(f, es))));
            && !read.failed
            && DispatchAll(f, AllOffWire(parse, read.frames))
                == Outcome(Carried(f, es) + FinalEvents(f, WholeResponse(es)), true, None)
  {
    hide Transcript, OnWire, OffWire, Lawful, Writable, Carried, FinalEvents, DispatchAll, Sse.Printable;
    var frames := Transcript(f, es);
    var wire := AllOnWire(print_, frames);
    TranscriptIsWritable(f, es);
    forall i | 0 <= i < |frames| ensures Sse.Printable(wire[i]) && OffWire(parse, wire[i]) == frames[i] {
      assert wire[i] in wire && frames[i] in frames;
      FrameSurvives(print_, parse, frames[i]);
    }
    Sse.FramesRoundTrip(wire);
    assert AllOffWire(parse, wire) == frames;
    TranslationKeepsEvents(f, es);
  }
}
