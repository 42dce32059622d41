/** What the client can read from a delivered stream, whatever the provider sent and wherever the connection broke. */
module DeliveryLaws {
  import opened Wrappers
  import opened Wire
  import opened Streams
  import opened StreamReading
  import opened StreamLaws
  import opened Delivery

  /** A frame that does not end the stream it is read in. */
  ghost predicate Open(f: Format, frame: Frame) { !Dispatched(f, false, frame).terminal }

  ghost predicate AllOpen(f: Format, fs: seq<Frame>) { forall x :: x in fs ==> Open(f, x) }

  lemma {:induction false} OpenFramesDoNotEnd(f: Format, fs: seq<Frame>)
    requires AllOpen(f, fs)
    ensures !DispatchAll(f, fs).terminal
  {
    hide Dispatched;
    if fs != [] {
      OpenFramesDoNotEnd(f, fs[..|fs| - 1]);
      assert Open(f, fs[|fs| - 1]);
    }
  }

  lemma UnfinishedVerdict(f: Format, fs: seq<Frame>)
    requires AllOpen(f, fs)
    ensures Verdict(DispatchAll(f, fs), false).Some?
  {
    hide AllOpen, DispatchAll;
    OpenFramesDoNotEnd(f, fs);
  }

  lemma ErrorIsOpen(f: Format, e: ProviderError)
    requires f.Valid()
    ensures forall x :: x in EventFrames(f, ErrorEvent(e)) ==> Open(f, x)
  {
    hide FailureOf, DecodeEvent, UsageEvents;
    var payload := Encode(f, ErrorEvent(e)).value;
    var name := if f == ChatCompletions then "" else StringAt(payload, "type");
    assert IsFailure(name, WithType(name, payload));
  }

  lemma EventIsOpen(f: Format, e: Event)
    requires f.Valid()
    ensures forall x :: x in EventFrames(f, e) ==> Open(f, x)
  {
    hide Dispatched, EventFrames, CarriedBy;
    if e.ErrorEvent? {
      ErrorIsOpen(f, e.error);
    } else {
      EventRoundTrip(f, e);
    }
  }

  lemma {:induction false} EventsAreOpen(f: Format, es: seq<Event>)
    requires f.Valid()
    ensures AllOpen(f, AllEventFrames(f, es))
  {
    hide EventFrames, Open;
    if es != [] {
      EventsAreOpen(f, es[..|es| - 1]);
      EventIsOpen(f, es[|es| - 1]);
    }
  }

  lemma OpeningIsOpen(f: Format)
    requires f.Valid()
    ensures AllOpen(f, StartFrames(f))
  {
    hide StartFrames, Dispatched;
    forall x | x in StartFrames(f) ensures Open(f, x) {
      var i :| 0 <= i < |StartFrames(f)| && StartFrames(f)[i] == x;
      OpeningIsSilent(f, i);
    }
  }

  lemma ClosingIsOpen(f: Format, r: Response)
    requires f.Valid()
    ensures EndFrames(f, r) != [] && AllOpen(f, EndFrames(f, r)[..|EndFrames(f, r)| - 1])
  {
    hide EndFrames, Dispatched, FinalEvents;
    LastFrameEnds(f, r);
    var ends := EndFrames(f, r);
    forall x | x in ends[..|ends| - 1] ensures Open(f, x) {
      var i :| 0 <= i < |ends| - 1 && ends[i] == x;
      ClosingIsSilent(f, r, i);
    }
  }

  /** Of everything a reply writes, only the last closing frame ends the stream. */
  lemma OnlyTheLastFrameEnds(f: Format, es: seq<Event>, done: bool, n: nat)
    requires f.Valid() && es != [] && (done ==> n < |Streamed(f, es, true)|)
    ensures AllOpen(f, UpTo(Streamed(f, es, done), n))
  {
    hide StartFrames, AllEventFrames, EndFrames, AbsorbAll, Open;
    var r := FinalResponse(AbsorbAll(f, es));
    OpeningIsOpen(f);
    EventsAreOpen(f, es);
    ClosingIsOpen(f, r);
    var ends := EndFrames(f, r);
    var most := Opened(f, es) + if done then ends[..|ends| - 1] else [];
    assert AllOpen(f, most);
    forall x | x in UpTo(Streamed(f, es, done), n) ensures Open(f, x) {
      var i :| 0 <= i < |UpTo(Streamed(f, es, done), n)| && UpTo(Streamed(f, es, done), n)[i] == x;
      assert i < |most| && most[i] == x;
    }
  }

  /** Until its first error a provider's stream consists of events that report no failure. */
  lemma {:induction false} EventsReadAreStreamed(f: Format, fs: seq<Frame>)
    ensures DispatchAll(f, fs).error.None? ==> AreStreamed(DispatchAll(f, fs).events)
  {
    hide Dispatched;
    if fs != [] {
      EventsReadAreStreamed(f, fs[..|fs| - 1]);
      StepIsStreamed(f, DispatchAll(f, fs[..|fs| - 1]).terminal, fs[|fs| - 1]);
    }
  }

  lemma StepIsStreamed(f: Format, terminal: bool, frame: Frame)
    ensures Dispatched(f, terminal, frame).error.None? ==> AreStreamed(Dispatched(f, terminal, frame).events)
  {
    hide DecodeUsage, FailureOf, IsFailure, HasUsage, WithType;
  }

  /**
   A client that is sent a provider's stream in its own format, over a connection that takes `n` frames, reads it as
   complete exactly if the provider's stream was complete, every frame arrived, and its format carries any of the
   events (Responses always has its snapshot). A stream cut short on either side is never taken for a complete one.
   */
  lemma ClientReadsCompleteExactly(c: Format, p: Format, frames: seq<Frame>, readFailed: bool, n: nat)
    requires c.Valid() && DispatchAll(p, frames).events != []
    ensures var o := DispatchAll(p, frames);
            var done := Verdict(o, readFailed).None?;
            var sent := Streamed(c, o.events, done);
            Verdict(DispatchAll(c, UpTo(sent, n)), false).None? <==>
              done && |sent| <= n && (Carried(c, o.events) != [] || c == Responses)
  {
    hide Dispatched, Streamed, Transcript, Carried, Snapshot, Reported, AllOpen, UpTo;
    var o := DispatchAll(p, frames);
    var done := Verdict(o, readFailed).None?;
    var sent := Streamed(c, o.events, done);
    if done && |sent| <= n {
      EventsReadAreStreamed(p, frames);
      WholeStreamRead(c, o.events);
      assert UpTo(sent, n) == sent by { AllOf(sent, n); }
    } else {
      OnlyTheLastFrameEnds(c, o.events, done, n);
      UnfinishedVerdict(c, UpTo(sent, n));
    }
  }

  lemma AllOf<T>(s: seq<T>, n: nat)
    requires |s| <= n
    ensures UpTo(s, n) == s
  {}

  lemma WholeStreamRead(c: Format, es: seq<Event>)
    requires c.Valid() && AreStreamed(es) && es != []
    ensures DispatchAll(c, Streamed(c, es, true))
             == Outcome(Carried(c, es) + FinalEvents(c, WholeResponse(es)), true, None)
  {
    hide DispatchAll, Carried, FinalEvents, AllEventFrames, StartFrames, EndFrames;
    TranslationKeepsEvents(c, es);
  }

  /**
   What a format carries can be nothing but usage: a Responses provider that sends its text in the final snapshot
   only, without deltas, is read as complete, and a client of another format is sent none of the text.
   */
  lemma SnapshotOnlyTextIsLost(c: Format, r: Response)
    requires c == ChatCompletions || c == AnthropicMessages
    ensures var frames := [TypedFrame("response.completed", map["response" := Obj(EncodeResponse(r))])];
            var o := DispatchAll(Responses, frames);
            && Verdict(o, false).None? && o.events == [UsageEvent(Reported(r.usage)), ResponseEvent(Snapshot(r))]
            && DispatchAll(c, Streamed(c, o.events, true)).events == CarriedBy(c, UsageEvent(Reported(r.usage)))
  {
    hide Streamed, Snapshot, Reported, EncodeResponse, Dispatched;
    var frames := [TypedFrame("response.completed", map["response" := Obj(EncodeResponse(r))])];
    CompletedDispatch(r);
    assert [] + frames == frames && DispatchAll(Responses, []) == Outcome([], false, None);
    OneMoreFrame(Responses, [], frames[0], [],
                 Step([UsageEvent(Reported(r.usage)), ResponseEvent(Snapshot(r))], true, None));
    var es := [UsageEvent(Reported(r.usage)), ResponseEvent(Snapshot(r))];
    hide DispatchAll;
    WholeStreamRead(c, es);
    OneIsCarried(c, es[0]);
    OneIsCarried(c, es[1]);
    CarriedInTurn(c, [es[0]], [es[1]]);
    assert es == [es[0]] + [es[1]];
  }

  /** Only a Responses stream carries snapshots. */
  lemma {:induction false} OnlyResponsesHasSnapshots(p: Format, fs: seq<Frame>)
    requires p != Responses
    ensures LastSnapshot(DispatchAll(p, fs).events) == NO_RESPONSE
  {
    hide Dispatched;
    if fs != [] {
      var before := DispatchAll(p, fs[..|fs| - 1]);
      OnlyResponsesHasSnapshots(p, fs[..|fs| - 1]);
      StepHasNoSnapshot(p, before.terminal, fs[|fs| - 1]);
      SnapshotStays(before.events, Dispatched(p, before.terminal, fs[|fs| - 1]).events);
    }
  }

  lemma StepHasNoSnapshot(p: Format, terminal: bool, frame: Frame)
    requires p != Responses
    ensures forall e :: e in Dispatched(p, terminal, frame).events ==> !e.ResponseEvent?
  {
    hide DecodeUsage, FailureOf, IsFailure, HasUsage, WithType;
  }

  lemma {:induction false} SnapshotStays(a: seq<Event>, b: seq<Event>)
    requires forall e :: e in b ==> !e.ResponseEvent?
    ensures LastSnapshot(a + b) == LastSnapshot(a)
  {
    if b == [] {
      assert a + b == a;
    } else {
      var init, last := b[..|b| - 1], b[|b| - 1];
      assert last in b && b == init + [last] && (a + b)[..|a + b| - 1] == a + init;
      SnapshotStays(a, init);
    }
  }

  /**
   When a provider's stream is complete and all of it is delivered, a Chat or Anthropic client gets the provider's text
   exactly if the final snapshot says nothing or what the deltas said, as it does for every provider that speaks Chat
   or Anthropic; a Responses client always gets it.
   */
  lemma ClientGetsTextExactly(c: Format, p: Format, frames: seq<Frame>)
    requires c.Valid() && Verdict(DispatchAll(p, frames), false).None?
    ensures var es := DispatchAll(p, frames).events;
            var read := DispatchAll(c, Streamed(c, es, true)).events;
            && (if c == Responses then LastSnapshot(read).text == WholeResponse(es).text
                else Texts(read) == WholeResponse(es).text <==>
                       LastSnapshot(es).text == "" || LastSnapshot(es).text == Texts(es))
            && (c != Responses && p != Responses ==> Texts(read) == WholeResponse(es).text == Texts(es))
  {
    hide DispatchAll, AreStreamed, StartFrames, AllEventFrames, EndFrames, Texts, LastSnapshot;
    EventsReadAreStreamed(p, frames);
    TextArrivesExactly(c, DispatchAll(p, frames).events);
    if p != Responses { OnlyResponsesHasSnapshots(p, frames); }
  }

  // ---------------------------------------------------------------- buffered replies

  lemma {:induction false} ReasoningIsCarried(f: Format, es: seq<Event>)
    requires f.Valid() && forall e :: e in es ==> e.ReasoningDelta? && e.reasoning != ""
    ensures Carried(f, es) == if f == Responses then [] else es
  {
    if es != [] {
      var init, last := es[..|es| - 1], es[|es| - 1];
      assert last in es && es == init + [last] && forall e :: e in init ==> e in es;
      ReasoningIsCarried(f, init);
      assert CarriedBy(f, last) == if f == Responses then [] else [last];
      hide CarriedBy;
    }
  }

  lemma OneIsCarried(f: Format, e: Event)
    ensures Carried(f, [e]) == CarriedBy(f, e)
  {
    assert Carried(f, [e][..0]) == [];
  }

  lemma {:induction false} CarriedInTurn(f: Format, a: seq<Event>, b: seq<Event>)
    ensures Carried(f, a + b) == Carried(f, a) + Carried(f, b)
  {
    hide CarriedBy;
    if b == [] {
      assert a + b == a;
    } else {
      CarriedInTurn(f, a, b[..|b| - 1]);
      assert (a + b)[..|a + b| - 1] == a + b[..|b| - 1];
    }
  }

  lemma {:induction false} ReasoningIsRemembered(a: seq<Event>, b: seq<Event>)
    requires forall e :: e in b ==> e.ReasoningDelta?
    ensures LastSnapshot(a + b) == LastSnapshot(a) && MergedUsage(a + b) == MergedUsage(a) && Texts(a + b) == Texts(a)
  {
    if b == [] {
      assert a + b == a;
    } else {
      var init, last := b[..|b| - 1], b[|b| - 1];
      assert last in b && b == init + [last];
      ReasoningIsRemembered(a, init);
      assert (a + b)[..|a + b| - 1] == a + init;
    }
  }

  ghost predicate NoEmptyReasoning(ms: seq<Message>) { forall m, t :: m in ms && t in m.reasoning ==> t != "" }

  lemma {:induction false} OnlyReasoning(ms: seq<Message>)
    ensures forall e :: e in AllReasoning(ms) ==> e.ReasoningDelta?
    ensures NoEmptyReasoning(ms) ==> forall e :: e in AllReasoning(ms) ==> e.reasoning != ""
  {
    if ms != [] {
      var init, last := ms[..|ms| - 1], ms[|ms| - 1];
      OnlyReasoning(init);
      assert last in ms && forall m :: m in init ==> m in ms;
      forall e | e in ReasoningDeltas(last.reasoning) ensures e.ReasoningDelta? && e.reasoning in last.reasoning {
        var i :| 0 <= i < |last.reasoning| && ReasoningDeltas(last.reasoning)[i] == e;
      }
    }
  }

  function TextDeltas(r: Response): seq<Event> { if TextOf(r) != "" then [TextDelta(TextOf(r))] else [] }

  /** What of a JSON reply a format carries. */
  function ReplyCarried(c: Format, r: Response): seq<Event> {
    TextDeltas(r) + (if c == Responses then [] else AllReasoning(r.messages)) + CarriedBy(c, UsageEvent(r.usage))
  }

  lemma ReplyIsCarried(c: Format, r: Response)
    requires c.Valid() && NoEmptyReasoning(r.messages)
    ensures Carried(c, Expanded(r)) == ReplyCarried(c, r)
  {
    var head, all, end := [ResponseEvent(r)] + TextDeltas(r), AllReasoning(r.messages), [UsageEvent(r.usage)];
    hide Carried, TextOf;
    OneIsCarried(c, ResponseEvent(r));
    OneIsCarried(c, UsageEvent(r.usage));
    TextsAreCarried(c, TextDeltas(r));
    OnlyReasoning(r.messages);
    hide TextDeltas, Expanded, AllReasoning, NoEmptyReasoning;
    CarriedInTurn(c, [ResponseEvent(r)], TextDeltas(r));
    ReasoningIsCarried(c, all);
    CarriedInTurn(c, head, all);
    CarriedInTurn(c, head + all, end);
    assert Expanded(r) == head + all + end by { ExpandedParts(r); }
  }

  lemma ExpandedParts(r: Response)
    ensures Expanded(r) == [ResponseEvent(r)] + TextDeltas(r) + AllReasoning(r.messages) + [UsageEvent(r.usage)]
    ensures Replayed([ResponseEvent(r)], true) == Expanded(r) && AreStreamed(Expanded(r))
  {
    hide AllReasoning, TextOf;
    OnlyReasoning(r.messages);
  }

  lemma ReplyIsRemembered(r: Response)
    ensures WholeResponse(Expanded(r)) == r.(text := TextOf(r), usage := MergeUsage(NO_USAGE, r.usage))
  {
    var head, all, end := [ResponseEvent(r)] + TextDeltas(r), AllReasoning(r.messages), [UsageEvent(r.usage)];
    ExpandedParts(r);
    OnlyReasoning(r.messages);
    ReasoningIsRemembered(head, all);
    UsageMergedTwice(r.usage);
    HeadIsRemembered(r);
    hide MergeUsage, AllReasoning, TextDeltas, Expanded, TextOf;
    assert (head + all + end)[..|head + all|] == head + all;
  }

  lemma HeadIsRemembered(r: Response)
    ensures var head := [ResponseEvent(r)] + TextDeltas(r);
            LastSnapshot(head) == r && MergedUsage(head) == MergeUsage(NO_USAGE, r.usage) && Texts(head) == TextOf(r)
  {
    hide MergeUsage, TextOf;
    var one := [ResponseEvent(r)];
    assert one[..0] == [] && LastSnapshot(one) == r && MergedUsage(one) == MergeUsage(NO_USAGE, r.usage)
           && Texts(one) == "";
    if TextOf(r) != "" {
      assert (one + [TextDelta(TextOf(r))])[..1] == one;
    } else {
      assert one + TextDeltas(r) == one;
    }
  }

  /**
   A JSON reply replayed as a stream is read back with its whole text, its reasoning in order (but for Responses)
   and its usage; the Responses snapshot is the reply itself.
   */
  lemma DocumentReadsBack(c: Format, r: Response)
    requires c.Valid() && NoEmptyReasoning(r.messages)
    ensures var sent := Streamed(c, Replayed([ResponseEvent(r)], true), true);
            DispatchAll(c, sent)
              == Outcome(ReplyCarried(c, r)
                         + FinalEvents(c, r.(text := TextOf(r), usage := MergeUsage(NO_USAGE, r.usage))), true, None)
  {
    hide DispatchAll, Streamed, FinalEvents, MergeUsage, Carried, ReplyCarried, TextOf, AllReasoning, AreStreamed,
         WholeResponse;
    ExpandedParts(r);
    WholeStreamRead(c, Expanded(r));
    ReplyIsCarried(c, r);
    ReplyIsRemembered(r);
  }

  lemma UsageMergedTwice(u: Usage)
    ensures MergeUsage(MergeUsage(NO_USAGE, u), u) == MergeUsage(NO_USAGE, u)
  {}
}
