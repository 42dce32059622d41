/** Server-sent event framing (writeSSEFrame in stream_encoder.go, readSSE in stream_decoder.go). */
module Sse {
  import opened Wrappers
  import opened Text

  const SCANNER_LIMIT := 0x10_0000

  /** What the scanner hands out: a line of any length below the limit, or the failure that ends the scan. */
  datatype Scan = Scan(lines: seq<string>, tooLong: bool)

  /** What reading reports: the (event name, payload) pairs dispatched, and whether the read failed. */
  datatype Frame = Frame(name: string, data: string)

  datatype Reading = Reading(frames: seq<Frame>, failed: bool)

  // ---------------------------------------------------------------- printing

  function PrintFrame(f: Frame): string {
    (if f.name != "" then "event: " + f.name + "\n" else "") + "data: " + f.data + "\n\n"
  }

  function PrintFrames(fs: seq<Frame>): string {
    if fs == [] then "" else PrintFrames(fs[..|fs| - 1]) + PrintFrame(fs[|fs| - 1])
  }

  // ---------------------------------------------------------------- lines

  function DropCR(line: string): string {
    if line != "" && line[|line| - 1] == '\r' then line[..|line| - 1] else line
  }

  /** bufio.ScanLines over a whole body: lines without their end, a last one only if it is not empty. */
  function ScanLines(s: string, from: nat, at: nat): Scan
    requires from <= at <= |s|
    decreases |s| - at
  {
    if at - from >= SCANNER_LIMIT then Scan([], true)
    else if at == |s| then (if from == at then Scan([], false) else Scan([DropCR(s[from..at])], false))
    else if s[at] == '\n' then
      var rest := ScanLines(s, at + 1, at + 1);
      rest.(lines := [DropCR(s[from..at])] + rest.lines)
    else ScanLines(s, from, at + 1)
  }

  function IndexOf(s: string, c: char): (r: nat)
    ensures r <= |s| && (r < |s| ==> s[r] == c) && forall i :: 0 <= i < r ==> s[i] != c
  {
    if s == "" || s[0] == c then 0 else 1 + IndexOf(s[1..], c)
  }

  function FieldOf(line: string): string { line[..IndexOf(line, ':')] }

  /** What follows the first colon, less one leading space. */
  function ValueOf(line: string): string {
    var i := IndexOf(line, ':');
    if i == |line| then ""
    else if i + 1 < |line| && line[i + 1] == ' ' then line[i + 2..] else line[i + 1..]
  }

  function Join(parts: seq<string>): string {
    if parts == [] then ""
    else if |parts| == 1 then parts[0]
    else Join(parts[..|parts| - 1]) + "\n" + parts[|parts| - 1]
  }

  // ---------------------------------------------------------------- reading

  /** The two variables readSSE carries from line to line. */
  datatype Pending = Pending(name: string, data: seq<string>)

  const NOTHING_PENDING := Pending("", [])

  function Flushed(p: Pending): seq<Frame> {
    if p.data == [] then [] else [Frame(p.name, TrimSpace(Join(p.data)))]
  }

  function AfterLine(p: Pending, line: string): Pending {
    if line == "" then NOTHING_PENDING
    else if FieldOf(line) == "event" then p.(name := ValueOf(line))
    else if FieldOf(line) == "data" then p.(data := p.data + [ValueOf(line)])
    else p
  }

  /** Frames dispatched while reading `lines`, and what is pending afterwards. */
  function ReadLines(lines: seq<string>): (seq<Frame>, Pending) {
    if lines == [] then ([], NOTHING_PENDING)
    else
      var (frames, p) := ReadLines(lines[..|lines| - 1]);
      var line := lines[|lines| - 1];
      (if line == "" then frames + Flushed(p) else frames, AfterLine(p, line))
  }

  function ReadSpec(body: string): Reading {
    var scan := ScanLines(body, 0, 0);
    var (frames, p) := ReadLines(scan.lines);
    if scan.tooLong then Reading(frames, true) else Reading(frames + Flushed(p), false)
  }

  /** readSSE. A read failure never turns an incomplete frame into an event; a clean end flushes it. */
  method ReadSSE(body: string) returns (r: Reading)
    ensures r == ReadSpec(body)
  {
    var scan := ScanLines(body, 0, 0);
    var name, data: seq<string>, frames: seq<Frame> := "", [], [];
    for i := 0 to |scan.lines|
      invariant (frames, Pending(name, data)) == ReadLines(scan.lines[..i])
    {
      var line := scan.lines[i];
      assert scan.lines[..i + 1][..i] == scan.lines[..i];
      if line == "" {
        assert frames + [] == frames;
        if data != [] { frames := frames + [Frame(name, TrimSpace(Join(data)))]; }
        name, data := "", [];
      } else {
        var field, value := FieldOf(line), ValueOf(line);
        if field == "event" {
          name := value;
        } else if field == "data" {
          data := data + [value];
        }
      }
    }
    assert scan.lines[..|scan.lines|] == scan.lines;
    if scan.tooLong {
      return Reading(frames, true);
    }
    assert frames + [] == frames;
    if data != [] { frames := frames + [Frame(name, TrimSpace(Join(data)))]; }
    return Reading(frames, false);
  }

  // ---------------------------------------------------------------- the round trip

  predicate SingleLine(s: string) {
    '\n' !in s && '\r' !in s
  }

  /** What a frame must look like to survive: single lines, below the limit, a payload that trimming keeps. */
  ghost predicate Printable(f: Frame) {
    && SingleLine(f.name) && SingleLine(f.data)
    && f.data != "" && Trimmed(f.data)
    && |f.name| + 7 < SCANNER_LIMIT && |f.data| + 6 < SCANNER_LIMIT
  }

  function FrameLines(f: Frame): seq<string> {
    (if f.name != "" then ["event: " + f.name] else []) + ["data: " + f.data, ""]
  }

  /** A printed line is scanned as itself, whatever follows. */
  lemma {:induction false} ScanPrintedLine(s: string, from: nat, at: nat, end: nat)
    requires from <= at <= end < |s| && s[end] == '\n' && end - from < SCANNER_LIMIT
    requires forall i :: at <= i < end ==> s[i] != '\n'
    requires end > from ==> s[end - 1] != '\r'
    ensures var rest := ScanLines(s, end + 1, end + 1);
            ScanLines(s, from, at) == Scan([s[from..end]] + rest.lines, rest.tooLong)
    decreases end - at
  {
    if at < end { ScanPrintedLine(s, from, at + 1, end); }
  }

  /** Scanning starts afresh after a line end: what came before does not matter. */
  lemma {:induction false} ScanShift(before: string, s: string, from: nat, at: nat)
    requires from <= at <= |s|
    ensures ScanLines(before + s, |before| + from, |before| + at) == ScanLines(s, from, at)
    decreases |s| - at
  {
    var whole := before + s;
    if at < |s| {
      assert whole[|before| + at] == s[at];
      assert whole[|before| + from..|before| + at] == s[from..at];
      if s[at] == '\n' { ScanShift(before, s, at + 1, at + 1); } else { ScanShift(before, s, from, at + 1); }
    } else {
      assert whole[|before| + from..|before| + at] == s[from..at];
    }
  }

  lemma ScanOneLine(line: string, rest: string)
    requires SingleLine(line) && |line| < SCANNER_LIMIT
    ensures ScanLines(line + "\n" + rest, 0, 0)
         == Scan([line] + ScanLines(rest, 0, 0).lines, ScanLines(rest, 0, 0).tooLong)
  {
    var s := line + "\n" + rest;
    forall i | 0 <= i < |line| ensures s[i] != '\n' && s[i] != '\r' { assert s[i] == line[i] && line[i] in line; }
    ScanPrintedLine(s, 0, 0, |line|);
    assert s[0..|line|] == line;
    ScanShift(line + "\n", rest, 0, 0);
    assert s == (line + "\n") + rest;
  }

  lemma ScanFrame(f: Frame, rest: string)
    requires Printable(f)
    ensures ScanLines(PrintFrame(f) + rest, 0, 0)
         == Scan(FrameLines(f) + ScanLines(rest, 0, 0).lines, ScanLines(rest, 0, 0).tooLong)
  {
    hide ScanLines;
    var d, tail := "data: " + f.data, "\n" + rest;
    assert SingleLine(d) && SingleLine("");
    ScanOneLine(d, tail);
    ScanOneLine("", rest);
    assert "" + "\n" + rest == tail;
    var body := d + "\n" + tail;
    if f.name != "" {
      var e := "event: " + f.name;
      assert SingleLine(e);
      ScanOneLine(e, body);
      assert PrintFrame(f) + rest == e + "\n" + body;
      assert [e] + ([d] + ([""] + ScanLines(rest, 0, 0).lines)) == FrameLines(f) + ScanLines(rest, 0, 0).lines;
    } else {
      assert PrintFrame(f) + rest == body;
      assert [d] + ([""] + ScanLines(rest, 0, 0).lines) == FrameLines(f) + ScanLines(rest, 0, 0).lines;
    }
  }

  function AllLines(fs: seq<Frame>): seq<string> {
    if fs == [] then [] else AllLines(fs[..|fs| - 1]) + FrameLines(fs[|fs| - 1])
  }

  lemma {:induction false} ScanFrames(fs: seq<Frame>, rest: string)
    requires forall f :: f in fs ==> Printable(f)
    ensures ScanLines(PrintFrames(fs) + rest, 0, 0)
         == Scan(AllLines(fs) + ScanLines(rest, 0, 0).lines, ScanLines(rest, 0, 0).tooLong)
  {
    hide ScanLines, PrintFrame, Printable, FrameLines;
    if fs == [] {
      assert "" + rest == rest;
    } else {
      var init, last := fs[..|fs| - 1], fs[|fs| - 1];
      assert last in fs && forall f :: f in init ==> f in fs;
      ScanFrames(init, PrintFrame(last) + rest);
      ScanFrame(last, rest);
      assert PrintFrames(fs) + rest == PrintFrames(init) + (PrintFrame(last) + rest);
      assert AllLines(init) + (FrameLines(last) + ScanLines(rest, 0, 0).lines)
              == AllLines(fs) + ScanLines(rest, 0, 0).lines;
    }
  }

  lemma FieldsOfPrintedLines(f: Frame)
    ensures FieldOf("event: " + f.name) == "event" && ValueOf("event: " + f.name) == f.name
    ensures FieldOf("data: " + f.data) == "data" && ValueOf("data: " + f.data) == f.data
  {
    var e, d := "event: " + f.name, "data: " + f.data;
    assert e[5] == ':' && e[6] == ' ' && forall i :: 0 <= i < 5 ==> e[i] != ':';
    assert d[4] == ':' && d[5] == ' ' && forall i :: 0 <= i < 4 ==> d[i] != ':';
    assert IndexOf(e, ':') == 5 && IndexOf(d, ':') == 4;
    assert e[..5] == "event" && e[7..] == f.name && d[..4] == "data" && d[6..] == f.data;
  }

  lemma ReadOneMore(lines: seq<string>, line: string)
    ensures var (frames, p) := ReadLines(lines);
            ReadLines(lines + [line]) == (if line == "" then frames + Flushed(p) else frames, AfterLine(p, line))
  {}

  lemma ReadFrame(lines: seq<string>, f: Frame)
    requires Printable(f) && ReadLines(lines).1 == NOTHING_PENDING
    ensures ReadLines(lines + FrameLines(f)) == (ReadLines(lines).0 + [f], NOTHING_PENDING)
  {
    hide ReadLines;
    FieldsOfPrintedLines(f);
    var e, d := "event: " + f.name, "data: " + f.data;
    var named := if f.name != "" then lines + [e] else lines;
    if f.name != "" { ReadOneMore(lines, e); }
    assert ReadLines(named) == (ReadLines(lines).0, Pending(f.name, []));
    ReadOneMore(named, d);
    ReadOneMore(named + [d], "");
    assert named + [d] + [""] == lines + FrameLines(f);
    assert [] + [f.data] == [f.data];
  }

  lemma {:induction false} ReadAllLines(fs: seq<Frame>)
    requires forall f :: f in fs ==> Printable(f)
    ensures ReadLines(AllLines(fs)) == (fs, NOTHING_PENDING)
  {
    hide Printable, FrameLines, AfterLine, Flushed;
    if fs != [] {
      hide ReadLines;
      var init, last := fs[..|fs| - 1], fs[|fs| - 1];
      ReadAllLines(init);
      ReadFrame(AllLines(init), last);
      assert fs == init + [last];
    }
  }

  /** Reading any concatenation of printed frames dispatches exactly the same names and payloads, in order. */
  lemma FramesRoundTrip(fs: seq<Frame>)
    requires forall f :: f in fs ==> Printable(f)
    ensures ReadSpec(PrintFrames(fs)) == Reading(fs, false)
  {
    hide Printable;
    ScanFrames(fs, "");
    assert PrintFrames(fs) + "" == PrintFrames(fs);
    assert AllLines(fs) + [] == AllLines(fs);
    ReadAllLines(fs);
  }
}
