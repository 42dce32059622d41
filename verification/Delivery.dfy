/** Delivering one upstream reply to the client (internal/proxy/stream.go, internal/wire/canonical.go). */
module Delivery {
  import opened Wrappers
  import opened Wire
  import opened Streams
  import opened StreamReading

  import opened Retry

  /**
   Why a call to a provider brought nothing: its own error reply, or a failure found on this side. `quota` says that
   the reply speaks of a used-up quota.
   */
  datatype CallError =
    | Upstream(status: int, quota: bool, retryAfterSeconds: Option<int>, nextAvailableAt: Option<int>)
    | Incompatible
    | MalformedReply
    | Local

  /** readUpstreamError: the class of a provider's error reply. */
  function UpstreamClass(status: int, quota: bool): (c: ErrorClass)
    ensures c != Cancelled
    ensures c == QuotaExhausted <==> quota && status != 400
  {
    if status == 400 then InvalidRequest
    else if quota then QuotaExhausted
    else if status in {401, 403} then Authentication
    else if status == 402 then Payment
    else if status == 404 then ModelNotFound
    else if status == 429 then RateLimit
    else if status == 408 then Timeout
    else if status >= 500 then Server
    else Unknown
  }

  /** classify: everything that is not a provider's error reply counts as a transport failure, cancellation included. */
  function ClassOf(e: CallError): (c: ErrorClass)
    ensures c != Cancelled
  {
    if e.Upstream? then UpstreamClass(e.status, e.quota) else Transport
  }

  /** A provider's answer: an error, an event stream, or one JSON document (already decoded). */
  datatype Reply =
    | Refused(error: CallError)
    | Events(frames: seq<Frame>, readFailed: bool)
    | Document(result: Result<Response, CallError>)

  /** One line of a stream passed through unread, with what the observer sees in it. */
  datatype Line = Line(frame: Frame, terminal: bool, failure: bool)

  /** A provider's answer in the client's own format, forwarded as it is. A whole body counts as one frame. */
  datatype RawReply =
    | RawRefused(error: CallError)
    | Lines(lines: seq<Line>, readFailed: bool)
    | Whole(body: Frame, readFailed: bool)

  function FaultOf(e: StreamError): CallError {
    if e == Malformed then MalformedReply else Local
  }

  // ---------------------------------------------------------------- what the client is meant to see

  function Opened(f: Format, es: seq<Event>): seq<Frame> {
    if es == [] then [] else StartFrames(f) + AllEventFrames(f, es)
  }

  /** The frames of a reply: its events, and the closing ones if it ended well. Nothing at all for no event. */
  function Streamed(f: Format, es: seq<Event>, done: bool): seq<Frame> {
    if es == [] then [] else Opened(f, es) + if done then EndFrames(f, FinalResponse(AbsorbAll(f, es))) else []
  }

  /** `stream` has written exactly `es`, starting from an untouched client that accepts `budget` frames. */
  ghost predicate Progress(stream: StreamWriter, es: seq<Event>, budget: nat)
    reads stream, stream.out
  {
    && (stream.committed <==> es != []) && (stream.out.headerSent <==> es != [])
    && stream.out.frames == Opened(stream.format, es)
    && |stream.out.frames| <= budget && stream.out.budget == budget - |stream.out.frames|
    && stream.Remembered() == AbsorbAll(stream.format, es)
  }

  /** A write failed: the client holds the first `budget` frames of what was meant for it. */
  ghost predicate Overrun(stream: StreamWriter, es: seq<Event>, budget: nat)
    reads stream, stream.out
  {
    && es != [] && stream.committed && stream.out.headerSent
    && |Opened(stream.format, es)| > budget
    && stream.out.frames == UpTo(Opened(stream.format, es), budget)
  }

  lemma OneMoreWrite(f: Format, es: seq<Event>, e: Event)
    ensures Opened(f, es + [e]) == Opened(f, es) + ((if es == [] then StartFrames(f) else []) + EventFrames(f, e))
    ensures AbsorbAll(f, es + [e]) == Absorb(f, AbsorbAll(f, es), e)
  {
    hide EventFrames, StartFrames, Absorb;
    assert (es + [e])[..|es|] == es;
    var before, last := AllEventFrames(f, es), EventFrames(f, e);
    assert AllEventFrames(f, es + [e]) == before + last;
    if es == [] {
      assert StartFrames(f) + (before + last) == [] + (StartFrames(f) + last);
    } else {
      assert StartFrames(f) + (before + last) == StartFrames(f) + before + ([] + last);
    }
  }

  lemma {:induction false} OpenedGrows(f: Format, a: seq<Event>, b: seq<Event>)
    requires a != []
    ensures Opened(f, a) <= Opened(f, a + b)
  {
    hide Opened;
    if b == [] {
      assert a + b == a;
    } else {
      OpenedGrows(f, a, b[..|b| - 1]);
      OneMoreWrite(f, a + b[..|b| - 1], b[|b| - 1]);
      assert a + b[..|b| - 1] + [b[|b| - 1]] == a + b;
    }
  }

  lemma OverrunStands(f: Format, a: seq<Event>, b: seq<Event>, done: bool, budget: nat)
    requires a != [] && |Opened(f, a)| > budget
    ensures |Opened(f, a + b)| > budget && UpTo(Opened(f, a + b), budget) == UpTo(Opened(f, a), budget)
    ensures |Streamed(f, a + b, done)| > budget && UpTo(Streamed(f, a + b, done), budget) == UpTo(Opened(f, a), budget)
  {
    hide Opened, EndFrames, AbsorbAll;
    OpenedGrows(f, a, b);
  }

  lemma Extends(so: seq<Frame>, more: seq<Frame>, budget: nat)
    requires |so| <= budget
    ensures UpTo(so + more, budget) == so + UpTo(more, budget - |so|)
    ensures |more| <= budget - |so| ==> UpTo(more, budget - |so|) == more
  {}

  method WriteOne(stream: StreamWriter, ghost before: seq<Event>, e: Event, ghost budget: nat) returns (ok: bool)
    requires Progress(stream, before, budget)
    modifies stream, stream.out
    ensures ok ==> Progress(stream, before + [e], budget)
    ensures !ok ==> Overrun(stream, before + [e], budget)
  {
    hide Opened, AbsorbAll, EventFrames, StartFrames, Absorb, UpTo;
    OneMoreWrite(stream.format, before, e);
    ghost var more := stream.StartIfNeeded() + EventFrames(stream.format, e);
    Extends(Opened(stream.format, before), more, budget);
    ok := stream.Write(e);
  }

  /** Writes events in order; `rest` is what the caller means to write after them. */
  method WriteAll(stream: StreamWriter, ghost before: seq<Event>, es: seq<Event>, ghost rest: seq<Event>,
                  ghost budget: nat)
    returns (ok: bool)
    requires Progress(stream, before, budget)
    modifies stream, stream.out
    ensures ok ==> Progress(stream, before + es, budget)
    ensures !ok ==> Overrun(stream, before + es + rest, budget)
  {
    hide Opened, AbsorbAll, UpTo;
    assert before + es[..0] == before;
    for i := 0 to |es|
      invariant Progress(stream, before + es[..i], budget)
    {
      ghost var so := before + es[..i] + [es[i]];
      assert so == before + es[..i + 1];
      ok := WriteOne(stream, before + es[..i], es[i], budget);
      if !ok {
        OverrunStands(stream.format, so, es[i + 1..] + rest, false, budget);
        assert so + (es[i + 1..] + rest) == before + es + rest;
        return;
      }
    }
    assert es[..|es|] == es;
    return true;
  }

  // ---------------------------------------------------------------- replaying a buffered reply

  function TextOf(r: Response): string { if r.text != "" then r.text else MessagesText(r.messages) }

  function ReasoningDeltas(texts: seq<string>): seq<Event> {
    seq(|texts|, i requires 0 <= i < |texts| => ReasoningDelta(texts[i]))
  }

  function AllReasoning(ms: seq<Message>): seq<Event> {
    if ms == [] then [] else AllReasoning(ms[..|ms| - 1]) + ReasoningDeltas(ms[|ms| - 1].reasoning)
  }

  /** A JSON result as a stream: its snapshot, its text in one delta, its reasoning, its usage. */
  function Expanded(r: Response): seq<Event> {
    [ResponseEvent(r)] + (if TextOf(r) != "" then [TextDelta(TextOf(r))] else []) + AllReasoning(r.messages)
    + [UsageEvent(r.usage)]
  }

  /** The events of a reply as they are written; snapshots of one that was buffered are expanded. */
  function Replayed(es: seq<Event>, buffered: bool): seq<Event> {
    if es == [] then []
    else
      var last := es[|es| - 1];
      Replayed(es[..|es| - 1], buffered) + if last.ResponseEvent? && buffered then Expanded(last.response) else [last]
  }

  /** Events of a stream are replayed as they are. */
  lemma {:induction false} StreamReplayed(es: seq<Event>)
    ensures Replayed(es, false) == es
  {
    if es != [] {
      StreamReplayed(es[..|es| - 1]);
      assert es == es[..|es| - 1] + [es[|es| - 1]];
    }
  }

  lemma {:induction false} ReplayedInParts(es: seq<Event>, i: nat, buffered: bool)
    requires i <= |es|
    ensures Replayed(es, buffered) == Replayed(es[..i], buffered) + Replayed(es[i..], buffered)
  {
    hide Expanded;
    if i < |es| {
      var init := es[..|es| - 1];
      ReplayedInParts(init, i, buffered);
      assert init[..i] == es[..i] && init[i..] == es[i..][..|es[i..]| - 1];
    } else {
      assert es[..i] == es;
    }
  }

  /** WriteResponse: the expansion of one snapshot. */
  method WriteResponse(stream: StreamWriter, ghost before: seq<Event>, r: Response, ghost rest: seq<Event>,
                       ghost budget: nat)
    returns (ok: bool)
    requires Progress(stream, before, budget)
    modifies stream, stream.out
    ensures ok ==> Progress(stream, before + Expanded(r), budget)
    ensures !ok ==> Overrun(stream, before + Expanded(r) + rest, budget)
  {
    hide Progress, Overrun, AllReasoning;
    var text := r.text;
    if text == "" { text := BlocksText(r.messages); }
    var head, textual, end := [ResponseEvent(r)], if text != "" then [TextDelta(text)] else [], [UsageEvent(r.usage)];
    ghost var reasoning := AllReasoning(r.messages);
    InFourParts(before, head, textual, reasoning, end, rest);
    ok := WriteAll(stream, before, head, textual + reasoning + end + rest, budget);
    if !ok { return; }
    ok := WriteAll(stream, before + head, textual, reasoning + end + rest, budget);
    if !ok { return; }
    ok := WriteReasoning(stream, before + head + textual, r.messages, end + rest, budget);
    if !ok { return; }
    ok := WriteAll(stream, before + head + textual + reasoning, end, rest, budget);
  }

  lemma InFourParts<T>(s: seq<T>, a: seq<T>, b: seq<T>, c: seq<T>, d: seq<T>, rest: seq<T>)
    ensures s + (a + b + c + d) == s + a + b + c + d
    ensures s + (a + b + c + d) + rest == s + a + (b + c + d + rest) == s + a + b + (c + d + rest)
             == s + a + b + c + (d + rest)
  {}

  method BlocksText(ms: seq<Message>) returns (text: string)
    ensures text == MessagesText(ms)
  {
    text := "";
    for i := 0 to |ms|
      invariant text == MessagesText(ms[..i])
    {
      assert ms[..i + 1][..i] == ms[..i];
      text := text + JoinTexts(ms[i].texts);
    }
    assert ms[..|ms|] == ms;
  }

  method WriteReasoning(stream: StreamWriter, ghost before: seq<Event>, ms: seq<Message>, ghost rest: seq<Event>,
                        ghost budget: nat)
    returns (ok: bool)
    requires Progress(stream, before, budget)
    modifies stream, stream.out
    ensures ok ==> Progress(stream, before + AllReasoning(ms), budget)
    ensures !ok ==> Overrun(stream, before + AllReasoning(ms) + rest, budget)
  {
    hide Progress, Overrun, ReasoningDeltas;
    assert before + AllReasoning(ms[..0]) == before;
    for i := 0 to |ms|
      invariant Progress(stream, before + AllReasoning(ms[..i]), budget)
    {
      ReasoningGrows(ms, i + 1);
      ghost var so, tail := before + AllReasoning(ms[..i]), AllReasoning(ms)[|AllReasoning(ms[..i + 1])|..];
      assert ms[..i + 1][..i] == ms[..i];
      assert before + AllReasoning(ms[..i + 1]) == so + ReasoningDeltas(ms[i].reasoning);
      assert before + AllReasoning(ms) + rest == so + ReasoningDeltas(ms[i].reasoning) + (tail + rest);
      ok := WriteAll(stream, so, ReasoningDeltas(ms[i].reasoning), tail + rest, budget);
      if !ok { return; }
    }
    assert ms[..|ms|] == ms;
    return true;
  }

  lemma {:induction false} ReasoningGrows(ms: seq<Message>, i: nat)
    requires i <= |ms|
    ensures AllReasoning(ms[..i]) <= AllReasoning(ms)
  {
    hide ReasoningDeltas;
    if i < |ms| {
      assert ms[..|ms| - 1][..i] == ms[..i];
      ReasoningGrows(ms[..|ms| - 1], i);
    } else {
      assert ms[..i] == ms;
    }
  }

  // ---------------------------------------------------------------- ending a stream

  lemma OneMoreFinish(f: Format, es: seq<Event>)
    requires es != []
    ensures Streamed(f, es, true) == Opened(f, es) + ([] + EndFrames(f, FinalResponse(AbsorbAll(f, es))))
  {
    hide EndFrames, AbsorbAll, Opened;
  }

  method Finish(stream: StreamWriter, ghost es: seq<Event>, ghost budget: nat) returns (ok: bool)
    requires es != [] && Progress(stream, es, budget)
    modifies stream, stream.out
    ensures stream.committed && stream.out.headerSent
    ensures ok <==> |Streamed(stream.format, es, true)| <= budget
    ensures stream.out.frames == UpTo(Streamed(stream.format, es, true), budget)
  {
    hide Opened, AbsorbAll, EndFrames, StartFrames, Streamed, UpTo;
    OneMoreFinish(stream.format, es);
    ghost var more := stream.StartIfNeeded() + EndFrames(stream.format, FinalResponse(stream.Remembered()));
    Extends(Opened(stream.format, es), more, budget);
    ok := stream.End();
  }

  lemma NotFinished(f: Format, es: seq<Event>, budget: nat)
    requires |Opened(f, es)| <= budget
    ensures Streamed(f, es, false) == Opened(f, es) == UpTo(Opened(f, es), budget)
  {
    hide StartFrames, AllEventFrames;
  }

  lemma NothingYet(c: Format, p: Format, frames: seq<Frame>)
    ensures Opened(c, []) == [] && AbsorbAll(c, []) == Memory(NO_RESPONSE, "")
    ensures DispatchAll(p, frames[..0]) == Outcome([], false, None)
  {}

  // ---------------------------------------------------------------- the three ways out

  /** pumpTranslatedStream: translates events as they arrive. Nothing is committed before the first one. */
  method PumpTranslatedStream(out: ClientWriter, c: Format, p: Format, frames: seq<Frame>, readFailed: bool)
    returns (committed: bool, error: Option<CallError>)
    requires out.Untouched() && c.Valid()
    modifies out
    ensures var o := DispatchAll(p, frames);
            var v := Verdict(o, readFailed);
            var meant := Streamed(c, o.events, v.None?);
            && (committed <==> o.events != []) && out.headerSent == committed
            && out.frames == UpTo(meant, old(out.budget))
            && (error.None? <==> v.None? && |meant| <= old(out.budget))
            && (!committed ==> error == Some(FaultOf(v.value)) && out.budget == old(out.budget))
  {
    hide Streamed, Opened, DispatchAll, Dispatched, AbsorbAll;
    var stream := new StreamWriter(c, out);
    ghost var budget := out.budget;
    var terminal, failure: Option<StreamError> := false, None;
    NothingYet(c, p, frames);
    ghost var sent: seq<Event> := [];
    var count := 0;
    var i := 0;
    while i < |frames| && failure.None?
      invariant 0 <= i <= |frames| && fresh(stream) && stream.out == out && stream.format == c
      invariant Progress(stream, sent, budget) && count == |sent|
      invariant DispatchAll(p, frames[..i]) == Outcome(sent, terminal, failure)
      modifies stream, out
    {
      DispatchNext(p, frames, i);
      var s := Dispatched(p, terminal, frames[i]);
      var ok := WriteAll(stream, sent, s.events, [], budget);
      assert sent + s.events + [] == sent + s.events;
      if !ok {
        EventsGrow(p, frames, i + 1);
        ghost var o := DispatchAll(p, frames);
        assert (sent + s.events) + o.events[|sent + s.events|..] == o.events;
        OverrunStands(c, sent + s.events, o.events[|sent + s.events|..], Verdict(o, readFailed).None?, budget);
        return true, Some(Local);
      }
      sent, terminal, failure := sent + s.events, s.terminal, s.error;
      count := count + |s.events|;
      i := i + 1;
    }
    if failure.Some? { StopsAtError(p, frames, i); }
    assert frames[..|frames|] == frames;
    if failure.None? && readFailed { failure := Some(ReadFailed); }
    if failure.None? && count == 0 { failure := Some(Malformed); }
    if failure.None? && !terminal { failure := Some(EndedEarly); }
    committed := stream.committed;
    if failure.Some? {
      NotFinished(c, sent, budget);
      return committed, Some(FaultOf(failure.value));
    }
    var ok := Finish(stream, sent, budget);
    return true, if ok then None else Some(Local);
  }

  lemma DispatchNext(p: Format, frames: seq<Frame>, i: nat)
    requires i < |frames| && DispatchAll(p, frames[..i]).error.None?
    ensures var before := DispatchAll(p, frames[..i]);
            var s := Dispatched(p, before.terminal, frames[i]);
            DispatchAll(p, frames[..i + 1]) == Outcome(before.events + s.events, s.terminal, s.error)
  {
    hide Dispatched;
    assert frames[..i + 1][..i] == frames[..i];
  }

  lemma {:induction false} EventsGrow(p: Format, frames: seq<Frame>, i: nat)
    requires i <= |frames|
    ensures DispatchAll(p, frames[..i]).events <= DispatchAll(p, frames).events
  {
    hide Dispatched;
    if i < |frames| {
      assert frames[..|frames| - 1][..i] == frames[..i];
      EventsGrow(p, frames[..|frames| - 1], i);
    } else {
      assert frames[..i] == frames;
    }
  }

  /** completeTranslatedStream: a whole reply replayed as a stream, cut short if the upstream was. */
  method CompleteTranslatedStream(out: ClientWriter, c: Format, es: seq<Event>, buffered: bool, cutShort: bool)
    returns (ok: bool)
    requires out.Untouched() && c.Valid() && es != []
    modifies out
    ensures var all := Replayed(es, buffered);
            && out.headerSent && out.frames == UpTo(Streamed(c, all, !cutShort), old(out.budget))
            && (ok <==> !cutShort && |Streamed(c, all, true)| <= old(out.budget))
  {
    hide Streamed, Opened, AbsorbAll, Expanded, Overrun;
    var stream := new StreamWriter(c, out);
    ghost var budget, all := out.budget, Replayed(es, buffered);
    NothingYet(c, c, []);
    for i := 0 to |es|
      invariant fresh(stream) && stream.out == out && stream.format == c
      invariant Progress(stream, Replayed(es[..i], buffered), budget)
      modifies stream, out
    {
      ghost var before, tail := Replayed(es[..i], buffered), Replayed(es[i + 1..], buffered);
      ReplayedNext(es, i, buffered);
      if es[i].ResponseEvent? && buffered {
        ok := WriteResponse(stream, before, es[i].response, tail, budget);
      } else {
        ok := WriteAll(stream, before, [es[i]], tail, budget);
      }
      if !ok {
        OverrunIsCut(stream, all, !cutShort, budget);
        OverrunIsCut(stream, all, true, budget);
        return;
      }
    }
    assert es[..|es|] == es;
    ReplayedSomething(es, buffered);
    if cutShort {
      NotFinished(c, all, budget);
      return false;
    }
    ok := Finish(stream, all, budget);
  }

  lemma ReplayedNext(es: seq<Event>, i: nat, buffered: bool)
    requires i < |es|
    ensures var part := if es[i].ResponseEvent? && buffered then Expanded(es[i].response) else [es[i]];
            && Replayed(es[..i + 1], buffered) == Replayed(es[..i], buffered) + part
            && Replayed(es, buffered) == Replayed(es[..i], buffered) + part + Replayed(es[i + 1..], buffered)
  {
    hide Expanded;
    assert es[..i + 1][..i] == es[..i];
    ReplayedInParts(es, i + 1, buffered);
  }

  lemma ReplayedSomething(es: seq<Event>, buffered: bool)
    requires es != []
    ensures Replayed(es, buffered) != []
  {}

  lemma OverrunIsCut(stream: StreamWriter, es: seq<Event>, done: bool, budget: nat)
    requires Overrun(stream, es, budget)
    ensures stream.out.headerSent && |Streamed(stream.format, es, done)| > budget
    ensures stream.out.frames == UpTo(Streamed(stream.format, es, done), budget)
  {
    hide Opened, EndFrames, AbsorbAll, UpTo;
    OverrunStands(stream.format, es, [], done, budget);
    assert es + [] == es;
  }

  /** EncodeResponse for a JSON client. */
  method WriteDocument(out: ClientWriter, body: Frame) returns (ok: bool)
    requires out.Untouched()
    modifies out
    ensures out.headerSent && out.frames == UpTo([body], old(out.budget)) && (ok <==> old(out.budget) > 0)
  {
    out.WriteHeader();
    ok := out.WriteFrame(body);
  }

  // ---------------------------------------------------------------- passing through

  /** What the client sees of passed-through lines: all of them up to the first that reports a failure. */
  function Through(lines: seq<Line>): seq<Frame> {
    if lines == [] then [] else [lines[0].frame] + if lines[0].failure then [] else Through(lines[1..])
  }

  predicate AnyFailure(lines: seq<Line>) { exists l :: l in lines && l.failure }

  predicate AnyTerminal(lines: seq<Line>) { exists l :: l in lines && l.terminal }

  lemma OneMoreLine(lines: seq<Line>, i: nat, sent: seq<Frame>)
    requires i < |lines| && Through(lines) == sent + Through(lines[i..])
    ensures lines[i].failure ==> Through(lines) == sent + [lines[i].frame]
    ensures !lines[i].failure ==> Through(lines) == sent + [lines[i].frame] + Through(lines[i + 1..])
  {}

  lemma SoFarExtends(lines: seq<Line>, i: nat)
    requires i < |lines|
    ensures AnyFailure(lines[..i + 1]) <==> AnyFailure(lines[..i]) || lines[i].failure
    ensures AnyTerminal(lines[..i + 1]) <==> AnyTerminal(lines[..i]) || lines[i].terminal
    ensures lines[i].failure ==> AnyFailure(lines)
  {}

  lemma NoLines(lines: seq<Line>)
    ensures !AnyFailure(lines[..0]) && !AnyTerminal(lines[..0])
    ensures lines[0..] == lines && Through([]) == []
  {}

  /** stream: copies lines to the client as they come, and stops at a provider failure or a failed write. */
  method PassThrough(out: ClientWriter, lines: seq<Line>, readFailed: bool) returns (ok: bool)
    requires out.Untouched()
    modifies out
    ensures out.headerSent && out.frames == UpTo(Through(lines), old(out.budget))
    ensures ok <==> |lines| <= old(out.budget) && !readFailed && !AnyFailure(lines) && AnyTerminal(lines)
  {
    hide AnyFailure, AnyTerminal, Through;
    out.WriteHeader();
    var terminal := false;
    ghost var budget := out.budget;
    NoLines(lines);
    for i := 0 to |lines|
      invariant !AnyFailure(lines[..i]) && terminal == AnyTerminal(lines[..i])
      invariant Through(lines) == out.frames + Through(lines[i..]) && |out.frames| == i
      invariant i <= budget && out.headerSent && out.budget == budget - i
    {
      OneMoreLine(lines, i, out.frames);
      SoFarExtends(lines, i);
      terminal := terminal || lines[i].terminal;
      ok := out.WriteFrame(lines[i].frame);
      if !ok || lines[i].failure {
        return false;
      }
    }
    assert lines[..|lines|] == lines && lines[|lines|..] == [];
    return terminal && !readFailed;
  }
}
