/** Reading a provider's stream back into events (internal/wire/stream_decoder.go). */
module StreamReading {
  import opened Wrappers
  import opened Wire
  import opened Streams
  import Sse

  datatype StreamError =
    | Malformed | ProviderFailure(message: string) | ReadFailed | EndedEarly | Partial(cause: StreamError)

  // ---------------------------------------------------------------- one frame

  /** The payload with its event name standing in for a missing type. */
  function WithType(name: string, o: Object): Object {
    if StringAt(o, "type") == "" then o["type" := Str(name)] else o
  }

  predicate IsFailure(name: string, o: Object) {
    var kind := StringAt(o, "type");
    || kind == "error" || name == "error"
    || ("error" in o && o["error"] != Null)
    || kind == "response.failed" || kind == "response.incomplete"
  }

  function FailureOf(o: Object): ProviderError {
    var kind := StringAt(o, "type");
    var r := ObjectAt(o, "response");
    var payload: Object := if r.Some? then r.value else o;
    var nested := ObjectAt(payload, "error");
    var e := if nested.Some?
             then ProviderError(ValueOr(StringAt(nested.value, "type"), kind), StringAt(nested.value, "code"),
                                StringAt(nested.value, "message"))
             else ProviderError(kind, "", StringAt(o, "message"));
    if e.message != "" then e else e.(message := ValueOr(StringAt(payload, "error"), kind))
  }

  /** The event a payload carries in its format, and whether it ends the stream. */
  function DecodeEvent(f: Format, o: Object): (Option<Event>, bool) {
    var kind := StringAt(o, "type");
    match f
    case ChatCompletions => (DecodeChat(o), false)
    case AnthropicMessages => (DecodeAnthropic(o), kind == "message_stop")
    case Responses =>
      if kind == "response.completed" then
        var r := DecodeResponse(o);
        (if r.Some? then Some(ResponseEvent(r.value)) else DecodeResponsesDelta(o), true)
      else (DecodeResponsesDelta(o), false)
    case UnknownFormat => (None, false)
  }

  function OptionSeq<T>(o: Option<T>): seq<T> {
    if o.Some? then [o.value] else []
  }

  function UsageEvents(o: Object): seq<Event> {
    if HasUsage(o) then [UsageEvent(DecodeUsage(o, NO_USAGE))] else []
  }

  /** What dispatching one frame emits, whether the stream is over, and the error that stops it. */
  datatype Step = Step(events: seq<Event>, terminal: bool, error: Option<StreamError>)

  function Dispatched(f: Format, terminal: bool, frame: Frame): Step {
    if terminal then Step([], true, None)
    else match frame.data
      case Blank => Step([], false, None)
      case Done => Step([], f == ChatCompletions, None)
      case Garbage => Step([], false, Some(Malformed))
      case Payload(raw) =>
        var o := WithType(frame.name, raw);
        if IsFailure(frame.name, o) then
          Step(UsageEvents(o) + [ErrorEvent(FailureOf(o))], false, Some(ProviderFailure(FailureOf(o).message)))
        else
          var (event, ends) := DecodeEvent(f, o);
          Step(UsageEvents(o) + OptionSeq(event), ends, None)
  }

  // ---------------------------------------------------------------- a whole stream

  class StreamDecoder {
    const format: Format
    var events: seq<Event>
    var terminal: bool

    constructor (format: Format)
      ensures this.format == format && events == [] && !terminal
    {
      this.format := format;
      events, terminal := [], false;
    }

    method Send(e: Event)
      modifies this`events
      ensures events == old(events) + [e]
    {
      events := events + [e];
    }

    method Dispatch(frame: Frame) returns (error: Option<StreamError>)
      modifies this
      ensures var s := Dispatched(format, old(terminal), frame);
              events == old(events) + s.events && terminal == s.terminal && error == s.error
    {
      hide DecodeEvent, HasUsage, DecodeUsage, IsFailure, FailureOf, WithType;
      if terminal || frame.data.Blank? {
        return None;
      }
      if frame.data.Done? {
        if format == ChatCompletions { terminal := true; }
        return None;
      }
      if frame.data.Garbage? {
        return Some(Malformed);
      }
      var o := WithType(frame.name, frame.data.o);
      if HasUsage(o) {
        Send(UsageEvent(DecodeUsage(o, NO_USAGE)));
      }
      if IsFailure(frame.name, o) {
        var failure := FailureOf(o);
        Send(ErrorEvent(failure));
        return Some(ProviderFailure(failure.message));
      }
      var (event, ends) := DecodeEvent(format, o);
      if ends { terminal := true; }
      if event.Some? {
        Send(event.value);
      }
      return None;
    }
  }

  datatype Outcome = Outcome(events: seq<Event>, terminal: bool, error: Option<StreamError>)

  /** Dispatching stops at the first error. */
  function DispatchAll(f: Format, frames: seq<Frame>): Outcome {
    if frames == [] then Outcome([], false, None)
    else
      var before := DispatchAll(f, frames[..|frames| - 1]);
      if before.error.Some? then before
      else
        var s := Dispatched(f, before.terminal, frames[|frames| - 1]);
        Outcome(before.events + s.events, s.terminal, s.error)
  }

  /** The verdict on a whole stream: data already delivered makes every failure a partial one. */
  function Verdict(o: Outcome, readFailed: bool): Option<StreamError> {
    var error := if o.error.Some? then o.error else if readFailed then Some(ReadFailed) else None;
    if error.Some? then (if o.events != [] then Some(Partial(error.value)) else error)
    else if o.events == [] then Some(Malformed)
    else if !o.terminal then Some(Partial(EndedEarly))
    else None
  }

  method StreamResponse(f: Format, frames: seq<Frame>, readFailed: bool)
    returns (events: seq<Event>, error: Option<StreamError>)
    ensures events == DispatchAll(f, frames).events && error == Verdict(DispatchAll(f, frames), readFailed)
  {
    hide Dispatched;
    var decoder := new StreamDecoder(f);
    var failure: Option<StreamError> := None;
    var i := 0;
    while i < |frames| && failure.None?
      invariant 0 <= i <= |frames| && fresh(decoder) && decoder.format == f
      invariant DispatchAll(f, frames[..i]) == Outcome(decoder.events, decoder.terminal, failure)
      modifies decoder
    {
      assert frames[..i + 1][..i] == frames[..i];
      failure := decoder.Dispatch(frames[i]);
      i := i + 1;
    }
    if failure.Some? { StopsAtError(f, frames, i); }
    assert frames[..|frames|] == frames;
    if failure.None? && readFailed { failure := Some(ReadFailed); }
    if failure.Some? {
      return decoder.events, if decoder.events != [] then Some(Partial(failure.value)) else failure;
    }
    if decoder.events == [] {
      return [], Some(Malformed);
    }
    if !decoder.terminal {
      return decoder.events, Some(Partial(EndedEarly));
    }
    return decoder.events, None;
  }

  lemma {:induction false} StopsAtError(f: Format, frames: seq<Frame>, i: nat)
    requires i <= |frames| && DispatchAll(f, frames[..i]).error.Some?
    ensures DispatchAll(f, frames) == DispatchAll(f, frames[..i])
  {
    hide Dispatched;
    if i < |frames| {
      assert frames[..|frames| - 1][..i] == frames[..i];
      StopsAtError(f, frames[..|frames| - 1], i);
    } else {
      assert frames[..i] == frames;
    }
  }
}
