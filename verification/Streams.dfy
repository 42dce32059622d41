/** Writing and reading translated streams (internal/wire/stream_encoder.go, stream_decoder.go). */
module Streams {
  import opened Wrappers
  import opened Wire

  /** The data of one SSE frame: a JSON object, the Chat terminator, nothing, or text that is no JSON object. */
  datatype Data = Payload(o: Object) | Done | Blank | Garbage

  datatype Frame = Frame(name: string, data: Data)

  // ---------------------------------------------------------------- the client's side of the wire

  /** The first `n` of `s`, or all of it. */
  function UpTo<T>(s: seq<T>, n: nat): seq<T> {
    if n <= |s| then s[..n] else s
  }

  lemma UpToInTurn<T>(a: seq<T>, b: seq<T>, n: nat)
    ensures UpTo(a + b, n) == if |a| <= n then a + UpTo(b, n - |a|) else UpTo(a, n)
  {}

  /** A downstream connection that accepts `budget` more frames and then fails every write. */
  class ClientWriter {
    var headerSent: bool
    var frames: seq<Frame>
    var budget: nat

    constructor (budget: nat)
      ensures !headerSent && frames == [] && this.budget == budget
    {
      headerSent, frames, this.budget := false, [], budget;
    }

    /** No byte has left for the client. */
    predicate Untouched()
      reads this
    {
      !headerSent && frames == []
    }

    method WriteHeader()
      modifies this`headerSent
      ensures headerSent
    {
      headerSent := true;
    }

    method WriteFrame(f: Frame) returns (ok: bool)
      modifies this`frames, this`budget
      ensures ok <==> old(budget) > 0
      ensures frames == old(frames) + UpTo([f], old(budget))
      ensures budget == if ok then old(budget) - 1 else 0
    {
      if budget == 0 {
        return false;
      }
      frames, budget := frames + [f], budget - 1;
      return true;
    }

    /** Writes frames in order until one fails, as the sequences of writeSSEFrame calls do. */
    method WriteFrames(fs: seq<Frame>) returns (ok: bool)
      modifies this`frames, this`budget
      ensures ok <==> |fs| <= old(budget)
      ensures frames == old(frames) + UpTo(fs, old(budget))
      ensures budget == if ok then old(budget) - |fs| else 0
    {
      var i := 0;
      while i < |fs|
        invariant 0 <= i <= |fs| && i <= old(budget)
        invariant frames == old(frames) + fs[..i] && budget == old(budget) - i
      {
        ok := WriteFrame(fs[i]);
        if !ok {
          assert UpTo(fs, old(budget)) == fs[..i];
          return;
        }
        i := i + 1;
      }
      return true;
    }
  }

  // ---------------------------------------------------------------- what each step writes

  function TypedFrame(kind: string, rest: Object): Frame { Frame(kind, Payload(Typed(kind, rest))) }

  /** The message a stream is about, as its framing names it. */
  function ItemObject(): Object {
    Typed("message", map["id" := Str("item-translation"), "role" := Str("assistant")])
  }

  function CreatedObject(): Object {
    map["id" := Str("resp-translation"), "object" := Str("response"), "status" := Str("in_progress")]
  }

  function MessageObject(): Object {
    Typed("message", map["id" := Str("msg-translation"), "role" := Str("assistant"), "content" := Arr([]),
                         "model" := Str("translation")])
  }

  function PartObject(kind: string, text: string): Object { Typed(kind, map["text" := Str(text)]) }

  function StartFrames(f: Format): seq<Frame> {
    match f
    case Responses => [
        TypedFrame("response.created", map["response" := Obj(CreatedObject())]),
        TypedFrame("response.output_item.added", map["item" := Obj(ItemObject())]),
        TypedFrame("response.content_part.added",
                   map["item_id" := Str("item-translation"), "part" := Obj(PartObject("output_text", ""))])]
    case AnthropicMessages => [
        TypedFrame("message_start", map["message" := Obj(MessageObject())]),
        TypedFrame("content_block_start", map["index" := Num(0), "content_block" := Obj(PartObject("text", ""))])]
    case _ => []
  }

  function PayloadFrames(f: Format, e: Event): seq<Frame> {
    var payload := Encode(f, e);
    if payload.None? then []
    else [Frame(if f == ChatCompletions then "" else StringAt(payload.value, "type"), Payload(payload.value))]
  }

  /** Snapshots and completion are held back for the end; Responses carries usage in its snapshot. */
  function EventFrames(f: Format, e: Event): seq<Frame> {
    if e.ResponseEvent? || e.Complete? || (e.UsageEvent? && f == Responses) then [] else PayloadFrames(f, e)
  }

  function EndFrames(f: Format, r: Response): seq<Frame> {
    match f
    case ChatCompletions => PayloadFrames(f, Complete("stop")) + [Frame("", Done)]
    case AnthropicMessages =>
      [TypedFrame("content_block_stop", map["index" := Num(0)]),
       TypedFrame("message_delta", map["delta" := Obj(map["stop_reason" := Str("end_turn")])])]
      + PayloadFrames(f, Complete(""))
    case Responses =>
      [TypedFrame("response.output_text.done", map["item_id" := Str("item-translation"), "text" := Str(r.text)]),
       TypedFrame("response.content_part.done", map["item_id" := Str("item-translation")]),
       TypedFrame("response.output_item.done", map["item" := Obj(ItemObject())])]
      + PayloadFrames(f, ResponseEvent(r))
    case UnknownFormat => []
  }

  /** What the writer remembers between events. */
  datatype Memory = Memory(response: Response, text: string)

  function Absorb(f: Format, m: Memory, e: Event): Memory {
    match e
    case UsageEvent(u) => m.(response := m.response.(usage := MergeUsage(m.response.usage, u)))
    case ResponseEvent(r) => m.(response := r.(usage := MergeUsage(m.response.usage, r.usage)))
    case TextDelta(t) => if f == Responses then m.(text := m.text + t) else m
    case _ => m
  }

  function AbsorbAll(f: Format, es: seq<Event>): Memory {
    if es == [] then Memory(NO_RESPONSE, "") else Absorb(f, AbsorbAll(f, es[..|es| - 1]), es[|es| - 1])
  }

  function AllEventFrames(f: Format, es: seq<Event>): seq<Frame> {
    if es == [] then [] else AllEventFrames(f, es[..|es| - 1]) + EventFrames(f, es[|es| - 1])
  }

  /** The final snapshot: its own text, or else everything streamed. */
  function FinalResponse(m: Memory): Response {
    if m.response.text == "" then m.response.(text := m.text) else m.response
  }

  /** Every frame of a stream of events, start to end. */
  function Transcript(f: Format, es: seq<Event>): seq<Frame> {
    StartFrames(f) + AllEventFrames(f, es) + EndFrames(f, FinalResponse(AbsorbAll(f, es)))
  }

  // ---------------------------------------------------------------- StreamWriter

  class StreamWriter {
    const format: Format
    const out: ClientWriter
    var committed: bool
    var response: Response
    var text: string

    constructor (format: Format, out: ClientWriter)
      requires format.Valid()
      ensures this.format == format && this.out == out
      ensures !committed && Remembered() == Memory(NO_RESPONSE, "")
    {
      this.format, this.out := format, out;
      committed, response, text := false, NO_RESPONSE, "";
    }

    ghost function Remembered(): Memory
      reads this
    {
      Memory(response, text)
    }

    /** `intended` went out in order, up to the first failed write. */
    twostate predicate Sent(intended: seq<Frame>, ok: bool)
      reads this, out
    {
      && (ok <==> |intended| <= old(out.budget))
      && out.frames == old(out.frames) + UpTo(intended, old(out.budget))
      && out.budget == (if ok then old(out.budget) - |intended| else 0)
    }

    ghost function StartIfNeeded(): seq<Frame>
      reads this
    {
      if committed then [] else StartFrames(format)
    }

    /** Commits before the first header or byte can leave. */
    method Start() returns (ok: bool)
      modifies this`committed, out
      ensures committed && (!old(committed) ==> out.headerSent)
              && (old(committed) ==> out.headerSent == old(out.headerSent))
      ensures Sent(old(StartIfNeeded()), ok)
    {
      if committed {
        return true;
      }
      committed := true;
      out.WriteHeader();
      ok := out.WriteFrames(StartFrames(format));
    }

    method Write(e: Event) returns (ok: bool)
      modifies this, out
      ensures committed && (!old(committed) ==> out.headerSent)
              && (old(committed) ==> out.headerSent == old(out.headerSent))
      ensures Sent(old(StartIfNeeded()) + EventFrames(format, e), ok)
      ensures ok ==> Remembered() == Absorb(format, old(Remembered()), e)
    {
      hide StartFrames, PayloadFrames, MergeUsage;
      if e.UsageEvent? {
        response := response.(usage := MergeUsage(response.usage, e.usage));
      }
      if e.ResponseEvent? {
        var previousUsage := response.usage;
        response := e.response.(usage := MergeUsage(previousUsage, e.response.usage));
      }
      UpToInTurn(StartIfNeeded(), EventFrames(format, e), out.budget);
      ok := Start();
      if !ok {
        return;
      }
      if e.ResponseEvent? || e.Complete? {
        return;
      }
      if e.UsageEvent? && format == Responses {
        return;
      }
      if e.TextDelta? && format == Responses {
        text := text + e.text;
      }
      ok := out.WriteFrames(PayloadFrames(format, e));
    }

    method End() returns (ok: bool)
      modifies this, out
      ensures committed && (!old(committed) ==> out.headerSent)
              && (old(committed) ==> out.headerSent == old(out.headerSent))
      ensures Sent(old(StartIfNeeded()) + EndFrames(format, FinalResponse(old(Remembered()))), ok)
    {
      hide StartFrames, EndFrames;
      UpToInTurn(StartIfNeeded(), EndFrames(format, FinalResponse(Remembered())), out.budget);
      ok := Start();
      if !ok {
        return;
      }
      if response.text == "" {
        response := response.(text := text);
      }
      ok := out.WriteFrames(EndFrames(format, response));
    }
  }

  /** encodeStreamFor: a whole list of events as one stream. */
  method EncodeStream(f: Format, es: seq<Event>, out: ClientWriter) returns (ok: bool)
    requires f.Valid() && out.Untouched()
    modifies out
    ensures ok <==> |Transcript(f, es)| <= old(out.budget)
    ensures out.frames == UpTo(Transcript(f, es), old(out.budget))
  {
    hide Transcript, EndFrames, EventFrames, StartFrames, Absorb, SentSoFar, AbsorbAll, UpTo, TailAfter;
    NothingSentYet(f, es);
    var stream := new StreamWriter(f, out);
    var i := 0;
    ghost var budget := out.budget;
    while i < |es|
      invariant 0 <= i <= |es| && stream.out == out && stream.format == f && fresh(stream)
      invariant stream.committed <==> i > 0
      invariant |SentSoFar(f, es, i)| <= budget
      invariant out.frames == SentSoFar(f, es, i) && out.budget == budget - |SentSoFar(f, es, i)|
      invariant stream.Remembered() == AbsorbAll(f, es[..i])
      modifies stream, out
    {
      ghost var more := stream.StartIfNeeded() + EventFrames(f, es[i]);
      OneMoreEvent(f, es, i);
      SplitTranscript(f, es, i + 1);
      ok := stream.Write(es[i]);
      SendInParts(SentSoFar(f, es, i), more, TailAfter(f, es, i + 1), budget);
      if !ok {
        return;
      }
      i := i + 1;
    }
    assert es[..i] == es;
    ghost var last := stream.StartIfNeeded() + EndFrames(f, FinalResponse(stream.Remembered()));
    assert Transcript(f, es) == SentSoFar(f, es, i) + last by { FullTranscript(f, es); }
    SendInParts(SentSoFar(f, es, i), last, [], budget);
    ok := stream.End();
  }

  /** The frames of the first `i` events, with the opening ones once anything is sent. */
  ghost function SentSoFar(f: Format, es: seq<Event>, i: nat): seq<Frame>
    requires i <= |es|
  {
    if i == 0 then [] else StartFrames(f) + AllEventFrames(f, es[..i])
  }

  ghost function TailAfter(f: Format, es: seq<Event>, i: nat): seq<Frame>
    requires i <= |es|
  {
    EventFramesExtend(f, es, i);
    AllEventFrames(f, es)[|AllEventFrames(f, es[..i])|..] + EndFrames(f, FinalResponse(AbsorbAll(f, es)))
  }

  lemma NothingSentYet(f: Format, es: seq<Event>)
    ensures SentSoFar(f, es, 0) == [] && AbsorbAll(f, es[..0]) == Memory(NO_RESPONSE, "")
  {}

  lemma OneMoreEvent(f: Format, es: seq<Event>, i: nat)
    requires i < |es|
    ensures SentSoFar(f, es, i + 1)
             == SentSoFar(f, es, i) + ((if i > 0 then [] else StartFrames(f)) + EventFrames(f, es[i]))
    ensures AbsorbAll(f, es[..i + 1]) == Absorb(f, AbsorbAll(f, es[..i]), es[i])
  {
    hide EventFrames, StartFrames, Absorb;
    assert es[..i + 1][..i] == es[..i];
    var before, last := AllEventFrames(f, es[..i]), EventFrames(f, es[i]);
    assert AllEventFrames(f, es[..i + 1]) == before + last;
    if i > 0 {
      assert StartFrames(f) + (before + last) == StartFrames(f) + before + ([] + last);
    } else {
      assert es[..0] == [] && [] + (StartFrames(f) + last) == StartFrames(f) + ([] + last);
    }
  }

  lemma SendInParts(sent: seq<Frame>, more: seq<Frame>, rest: seq<Frame>, budget: nat)
    requires |sent| <= budget
    ensures |sent + more| > budget ==>
              && UpTo(sent + more + rest, budget) == sent + UpTo(more, budget - |sent|)
              && |sent + more + rest| > budget
    ensures |sent + more| <= budget ==> UpTo(more, budget - |sent|) == more
    ensures UpTo(sent + more, budget) == sent + UpTo(more, budget - |sent|)
  {}

  lemma FullTranscript(f: Format, es: seq<Event>)
    ensures Transcript(f, es)
         == SentSoFar(f, es, |es|) + ((if |es| > 0 then [] else StartFrames(f))
                                      + EndFrames(f, FinalResponse(AbsorbAll(f, es))))
  {
    hide EndFrames, StartFrames, EventFrames;
    assert es[..|es|] == es;
  }

  lemma {:induction false} EventFramesExtend(f: Format, es: seq<Event>, i: nat)
    requires i <= |es|
    ensures AllEventFrames(f, es[..i]) <= AllEventFrames(f, es)
  {
    if i < |es| {
      EventFramesExtend(f, es[..|es| - 1], i);
      assert es[..|es| - 1][..i] == es[..i];
    } else {
      assert es[..i] == es;
    }
  }

  lemma SplitTranscript(f: Format, es: seq<Event>, i: nat)
    requires 0 < i <= |es|
    ensures Transcript(f, es) == SentSoFar(f, es, i) + TailAfter(f, es, i)
  {
    hide EndFrames, EventFrames, StartFrames;
    EventFramesExtend(f, es, i);
  }
}
