/**
 Observing server-sent events chunk by chunk (`domain/activity/stream.rs`, `codec/bridge/stream/sse.rs`,
 `codec/bridge/stream/pipeline.rs`). The wire format is the event stream of the WHATWG HTML Living Standard,
 sections 9.2.5 and 9.2.6; as in the code, a lone carriage return ends no line, all leading white space of
 data is dropped, and a trailing event is dispatched when the stream finishes.
 */
module Streams {
  import opened Basics

  type Byte = b: int | 0 <= b < 256

  const LF: Byte := 10

  const CR: Byte := 13

  function StripCr(line: seq<Byte>): seq<Byte> {
    if line != [] && line[|line| - 1] == CR then line[..|line| - 1] else line
  }

  /** Position of the first line feed, or the length. */
  function Position(bytes: seq<Byte>): (n: nat)
    ensures n <= |bytes|
    ensures LF !in bytes[..n]
    ensures n < |bytes| ==> bytes[n] == LF
  {
    if bytes == [] || bytes[0] == LF then 0 else 1 + Position(bytes[1..])
  }

  // ----- Capturing content -----

  datatype Protocol = ChatCompletions | ImageGeneration

  datatype ToolCallDelta =
    ToolCallDelta(index: nat, id: Option<string>, name: Option<string>, arguments: Option<string>)

  datatype CapturedToolCall = CapturedToolCall(id: string, name: string, arguments: string)

  /** What the capture reads out of one event's JSON. */
  datatype Delta = Delta(
    content: Option<string>, reasoning: Option<string>, toolCalls: seq<ToolCallDelta>, eventType: Option<string>)

  /** UTF-8 decoding of a line and JSON decoding of an event are parameters. */
  datatype Decoders = Decoders(utf8: seq<Byte> -> Option<string>, json: string -> Option<Delta>)

  datatype Captured = Captured(
    lineBuffer: seq<Byte>, dataLines: seq<string>, outputText: string, reasoningText: string,
    toolCalls: map<nat, CapturedToolCall>, completed: bool)

  const NothingCaptured := Captured([], [], "", "", map[], false)

  /** `char::is_whitespace` */
  predicate IsWhitespace(c: char) {
    var n := c as int;
    || 0x09 <= n <= 0x0D || n == 0x20 || n == 0x85 || n == 0xA0 || n == 0x1680
    || 0x2000 <= n <= 0x200A || n == 0x2028 || n == 0x2029 || n == 0x202F || n == 0x205F || n == 0x3000
  }

  function TrimStart(s: string): string {
    if s != "" && IsWhitespace(s[0]) then TrimStart(s[1..]) else s
  }

  function TrimEnd(s: string): string {
    if s != "" && IsWhitespace(s[|s| - 1]) then TrimEnd(s[..|s| - 1]) else s
  }

  function Join(lines: seq<string>): string {
    if lines == [] then ""
    else if |lines| == 1 then lines[0]
    else Join(lines[..|lines| - 1]) + "\n" + lines[|lines| - 1]
  }

  function ToolCallOf(calls: map<nat, CapturedToolCall>, d: ToolCallDelta): CapturedToolCall {
    var known := if d.index in calls then calls[d.index] else CapturedToolCall("", "", "");
    CapturedToolCall(
      if d.id.Some? then d.id.value else known.id,
      if d.name.Some? then d.name.value else known.name,
      known.arguments + (if d.arguments.Some? then d.arguments.value else ""))
  }

  function WithToolCalls(calls: map<nat, CapturedToolCall>, ds: seq<ToolCallDelta>): map<nat, CapturedToolCall> {
    if ds == [] then calls
    else
      var before := WithToolCalls(calls, ds[..|ds| - 1]);
      var d := ds[|ds| - 1];
      before[d.index := ToolCallOf(before, d)]
  }

  function OrEmpty(text: Option<string>): string {
    if text.Some? then text.value else ""
  }

  /** `flush_event` */
  function FlushEvent(dec: Decoders, protocol: Protocol, c: Captured): Captured {
    if c.dataLines == [] then c
    else
      var data := Join(c.dataLines);
      var c' := c.(dataLines := []);
      var value := dec.json(data);
      match protocol
      case ChatCompletions =>
        if TrimEnd(TrimStart(data)) == "[DONE]" then c'.(completed := true)
        else if value.None? then c'
        else c'.(outputText := c.outputText + OrEmpty(value.value.content),
                 reasoningText := c.reasoningText + OrEmpty(value.value.reasoning),
                 toolCalls := WithToolCalls(c.toolCalls, value.value.toolCalls))
      case ImageGeneration =>
        if value.Some? && value.value.eventType == Some("image_generation.completed")
        then c'.(completed := true) else c'
  }

  /** `observe_line` */
  function ObserveLine(dec: Decoders, protocol: Protocol, c: Captured, line: seq<Byte>): Captured {
    if line == [] then FlushEvent(dec, protocol, c)
    else
      match dec.utf8(line)
      case None => c
      case Some(text) =>
        if "data:" <= text then c.(dataLines := c.dataLines + [TrimStart(text[5..])]) else c
  }

  /** The capture one byte at a time: the reference the chunked loop is compared with. */
  function ObserveByte(dec: Decoders, protocol: Protocol, c: Captured, b: Byte): Captured {
    if b == LF then ObserveLine(dec, protocol, c.(lineBuffer := []), StripCr(c.lineBuffer))
    else c.(lineBuffer := c.lineBuffer + [b])
  }

  function Observe(dec: Decoders, protocol: Protocol, c: Captured, bytes: seq<Byte>): Captured {
    if bytes == [] then c
    else ObserveByte(dec, protocol, Observe(dec, protocol, c, bytes[..|bytes| - 1]), bytes[|bytes| - 1])
  }

  /** `finish` */
  function FinishCapture(dec: Decoders, protocol: Protocol, c: Captured): Captured {
    var c' := if c.lineBuffer != [] then ObserveLine(dec, protocol, c.(lineBuffer := []), c.lineBuffer) else c;
    FlushEvent(dec, protocol, c')
  }

  lemma {:induction false} ObserveAppend(dec: Decoders, protocol: Protocol, c: Captured, a: seq<Byte>, b: seq<Byte>)
    ensures Observe(dec, protocol, c, a + b) == Observe(dec, protocol, Observe(dec, protocol, c, a), b)
  {
    if b == [] {
      assert a + b == a;
    } else {
      assert (a + b)[..|a + b| - 1] == a + b[..|b| - 1];
      ObserveAppend(dec, protocol, c, a, b[..|b| - 1]);
    }
  }

  /** Bytes without a line feed only extend the buffer. */
  lemma {:induction false} ObservePlain(dec: Decoders, protocol: Protocol, c: Captured, bytes: seq<Byte>)
    requires forall k :: 0 <= k < |bytes| ==> bytes[k] != LF
    ensures Observe(dec, protocol, c, bytes) == c.(lineBuffer := c.lineBuffer + bytes)
  {
    if bytes == [] {
      assert c.lineBuffer + bytes == c.lineBuffer;
    } else {
      ObservePlain(dec, protocol, c, bytes[..|bytes| - 1]);
      assert c.lineBuffer + bytes[..|bytes| - 1] + [bytes[|bytes| - 1]] == c.lineBuffer + bytes;
    }
  }

  /** Bytes up to the first line feed complete the buffered line. */
  lemma ObserveFirst(dec: Decoders, protocol: Protocol, c: Captured, bytes: seq<Byte>)
    requires Position(bytes) < |bytes|
    ensures var n := Position(bytes);
      Observe(dec, protocol, c, bytes)
        == Observe(dec, protocol, ObserveLine(dec, protocol, c.(lineBuffer := []), StripCr(c.lineBuffer + bytes[..n])),
          bytes[n + 1..])
  {
    hide ObserveLine, StripCr;
    var n := Position(bytes);
    var line := bytes[..n] + [LF];
    assert bytes == line + bytes[n + 1..];
    ObserveAppend(dec, protocol, c, line, bytes[n + 1..]);
    ObservePlain(dec, protocol, c, bytes[..n]);
    assert line[..n] == bytes[..n] && line[n] == LF;
  }

  class RawStreamContentCapture {
    const dec: Decoders
    const protocol: Protocol
    var lineBuffer: seq<Byte>
    var dataLines: seq<string>
    var outputText: string
    var reasoningText: string
    var toolCalls: map<nat, CapturedToolCall>
    var completed: bool

    constructor (dec: Decoders, protocol: Protocol)
      ensures View() == NothingCaptured && this.dec == dec && this.protocol == protocol
    {
      this.dec, this.protocol := dec, protocol;
      lineBuffer, dataLines, outputText, reasoningText, toolCalls, completed := [], [], "", "", map[], false;
    }

    ghost function View(): Captured
      reads this
    {
      Captured(lineBuffer, dataLines, outputText, reasoningText, toolCalls, completed)
    }

    /** The chunk loop: cut at line feeds, buffer what is left. */
    method ObserveChunk(chunk: seq<Byte>)
      modifies this
      ensures View() == Observe(dec, protocol, old(View()), chunk)
    {
      hide ObserveLine, Observe;
      var rest := chunk;
      while rest != []
        invariant Observe(dec, protocol, old(View()), chunk) == Observe(dec, protocol, View(), rest)
        decreases |rest|
      {
        var newline := Position(rest);
        if newline == |rest| {
          ObservePlain(dec, protocol, View(), rest);
          lineBuffer := lineBuffer + rest;
          return;
        }
        ObserveFirst(dec, protocol, View(), rest);
        lineBuffer := lineBuffer + rest[..newline];
        rest := rest[newline + 1..];
        if lineBuffer != [] && lineBuffer[|lineBuffer| - 1] == CR {
          lineBuffer := lineBuffer[..|lineBuffer| - 1];
        }
        var line := lineBuffer;
        lineBuffer := [];
        TakeLine(line);
      }
      ObservePlain(dec, protocol, View(), rest);
      assert lineBuffer + rest == lineBuffer;
    }

    method TakeLine(line: seq<Byte>)
      modifies this
      ensures View() == ObserveLine(dec, protocol, old(View()), line)
    {
      if line == [] {
        Flush();
        return;
      }
      var text := dec.utf8(line);
      if text.Some? && "data:" <= text.value {
        dataLines := dataLines + [TrimStart(text.value[5..])];
      }
    }

    /** `observe_chat_tool_call`, for each part in turn. */
    method TakeToolCalls(parts: seq<ToolCallDelta>)
      modifies this`toolCalls
      ensures toolCalls == WithToolCalls(old(toolCalls), parts)
    {
      for i := 0 to |parts|
        invariant toolCalls == WithToolCalls(old(toolCalls), parts[..i])
      {
        assert parts[..i + 1][..i] == parts[..i];
        var d := parts[i];
        toolCalls := toolCalls[d.index := ToolCallOf(toolCalls, d)];
      }
      assert parts[..|parts|] == parts;
    }

    method Flush()
      modifies this
      ensures View() == FlushEvent(dec, protocol, old(View()))
    {
      if dataLines == [] { return; }
      var data := Join(dataLines);
      dataLines := [];
      var value := dec.json(data);
      match protocol {
        case ChatCompletions =>
          if TrimEnd(TrimStart(data)) == "[DONE]" {
            completed := true;
            return;
          }
          if value.Some? {
            var delta := value.value;
            if delta.content.Some? { outputText := outputText + delta.content.value; }
            if delta.reasoning.Some? { reasoningText := reasoningText + delta.reasoning.value; }
            TakeToolCalls(delta.toolCalls);
          }
        case ImageGeneration =>
          if value.Some? && value.value.eventType == Some("image_generation.completed") { completed := true; }
      }
    }

    method Finish()
      modifies this
      ensures View() == FinishCapture(dec, protocol, old(View()))
    {
      if lineBuffer != [] {
        var line := lineBuffer;
        lineBuffer := [];
        TakeLine(line);
      }
      Flush();
    }
  }

  /** Observing chunks one after the other. */
  function ObserveAll(dec: Decoders, protocol: Protocol, c: Captured, chunks: seq<seq<Byte>>): Captured
    decreases |chunks|
  {
    if chunks == [] then c else ObserveAll(dec, protocol, Observe(dec, protocol, c, chunks[0]), chunks[1..])
  }

  lemma {:induction false} ObserveAllIsObserve(dec: Decoders, protocol: Protocol, c: Captured, chunks: seq<seq<Byte>>)
    ensures ObserveAll(dec, protocol, c, chunks) == Observe(dec, protocol, c, Flatten(chunks))
    decreases |chunks|
  {
    if chunks == [] {
    } else {
      ObserveAppend(dec, protocol, c, chunks[0], Flatten(chunks[1..]));
      ObserveAllIsObserve(dec, protocol, Observe(dec, protocol, c, chunks[0]), chunks[1..]);
    }
  }

  /** Chunk boundaries do not matter: two splittings of the same bytes capture the same state. */
  lemma ChunkIndependence(dec: Decoders, protocol: Protocol, c: Captured, one: seq<seq<Byte>>, other: seq<seq<Byte>>)
    requires Flatten(one) == Flatten(other)
    ensures ObserveAll(dec, protocol, c, one) == ObserveAll(dec, protocol, c, other)
    ensures FinishCapture(dec, protocol, ObserveAll(dec, protocol, c, one))
         == FinishCapture(dec, protocol, ObserveAll(dec, protocol, c, other))
  {
    ObserveAllIsObserve(dec, protocol, c, one);
    ObserveAllIsObserve(dec, protocol, c, other);
  }

  // ----- What finishing means -----

  /**
   Finishing is what the stream's own line ends would have done: a trailing line is taken as it stands, and
   a trailing event is dispatched as if a blank line followed. When the unfinished line does not end in a
   carriage return, plain line feeds have the same effect.
   */
  lemma FinishIsBlankLine(dec: Decoders, protocol: Protocol, c: Captured)
    ensures FinishCapture(dec, protocol, c) == Observe(dec, protocol, c, [CR, LF, LF])
    ensures c.lineBuffer == [] || c.lineBuffer[|c.lineBuffer| - 1] != CR ==>
      FinishCapture(dec, protocol, c) == Observe(dec, protocol, c, [LF, LF])
  {
    hide ObserveLine, FlushEvent;
    ClosingBytes(dec, protocol, c);
    var line := c.lineBuffer;
    assert StripCr(line + [CR]) == line;
    var c0 := c.(lineBuffer := []);
    LineKeepsBuffer(dec, protocol, c0, line);
    BlankLine(dec, protocol, c0);
    BlankLine(dec, protocol, ObserveLine(dec, protocol, c0, line));
    assert line == [] ==> c0 == c;
  }

  /** The three closing bytes, and the last two alone, one at a time. */
  lemma ClosingBytes(dec: Decoders, protocol: Protocol, c: Captured)
    ensures var c0 := c.(lineBuffer := []);
      && Observe(dec, protocol, c, [CR, LF, LF])
           == ObserveByte(dec, protocol, ObserveLine(dec, protocol, c0, StripCr(c.lineBuffer + [CR])), LF)
      && Observe(dec, protocol, c, [LF, LF])
           == ObserveByte(dec, protocol, ObserveLine(dec, protocol, c0, StripCr(c.lineBuffer)), LF)
  {
    hide ObserveLine, StripCr;
    var c0, held := c.(lineBuffer := []), c.(lineBuffer := c.lineBuffer + [CR]);
    ObserveAppend(dec, protocol, c, [CR], [LF, LF]);
    ObserveOne(dec, protocol, c, CR);
    assert [CR] + [LF, LF] == [CR, LF, LF] && held.(lineBuffer := []) == c0;
    TwoLineFeeds(dec, protocol, c);
    TwoLineFeeds(dec, protocol, held);
  }

  lemma ObserveOne(dec: Decoders, protocol: Protocol, c: Captured, b: Byte)
    ensures Observe(dec, protocol, c, [b]) == ObserveByte(dec, protocol, c, b)
  {
    hide ObserveByte;
    assert [b][..0] == [];
  }

  lemma TwoLineFeeds(dec: Decoders, protocol: Protocol, c: Captured)
    ensures Observe(dec, protocol, c, [LF, LF])
      == ObserveByte(dec, protocol, ObserveLine(dec, protocol, c.(lineBuffer := []), StripCr(c.lineBuffer)), LF)
  {
    hide ObserveLine, StripCr;
    ObserveAppend(dec, protocol, c, [LF], [LF]);
    ObserveOne(dec, protocol, c, LF);
    ObserveOne(dec, protocol, Observe(dec, protocol, c, [LF]), LF);
    assert [LF] + [LF] == [LF, LF];
  }

  /** A blank line dispatches the event; a second one finds nothing to dispatch. */
  lemma BlankLine(dec: Decoders, protocol: Protocol, c: Captured)
    requires c.lineBuffer == []
    ensures ObserveByte(dec, protocol, c, LF) == ObserveLine(dec, protocol, c, []) == FlushEvent(dec, protocol, c)
    ensures FlushEvent(dec, protocol, FlushEvent(dec, protocol, c)) == FlushEvent(dec, protocol, c)
    ensures FlushEvent(dec, protocol, c).lineBuffer == []
  {
    assert c.(lineBuffer := []) == c;
  }

  /**
   A finished capture of a whole stream, however it was cut into chunks, is the capture of its bytes with a
   line end and a blank line behind them: no trailing line or event is lost.
   */
  lemma FinishedStream(dec: Decoders, protocol: Protocol, c: Captured, chunks: seq<seq<Byte>>)
    ensures FinishCapture(dec, protocol, ObserveAll(dec, protocol, c, chunks))
         == Observe(dec, protocol, c, Flatten(chunks) + [CR, LF, LF])
  {
    hide Observe, FinishCapture, ObserveAll, Flatten;
    ObserveAllIsObserve(dec, protocol, c, chunks);
    FinishIsBlankLine(dec, protocol, ObserveAll(dec, protocol, c, chunks));
    ObserveAppend(dec, protocol, c, Flatten(chunks), [CR, LF, LF]);
  }

  // ----- Lines -----

  /** The lines of a byte string that are closed by a line feed, each without its line end. */
  function ClosedLines(bytes: seq<Byte>): seq<seq<Byte>>
    decreases |bytes|
  {
    var n := Position(bytes);
    if n == |bytes| then [] else [StripCr(bytes[..n])] + ClosedLines(bytes[n + 1..])
  }

  /** What follows the last line feed. */
  function Remainder(bytes: seq<Byte>): seq<Byte>
    decreases |bytes|
  {
    var n := Position(bytes);
    if n == |bytes| then bytes else Remainder(bytes[n + 1..])
  }

  lemma {:induction false} RemainderIsTail(bytes: seq<Byte>)
    ensures LF !in Remainder(bytes)
    ensures |Remainder(bytes)| <= |bytes| && bytes[|bytes| - |Remainder(bytes)|..] == Remainder(bytes)
    ensures |Remainder(bytes)| < |bytes| ==> bytes[|bytes| - |Remainder(bytes)| - 1] == LF
    decreases |bytes|
  {
    var n := Position(bytes);
    if n < |bytes| { RemainderIsTail(bytes[n + 1..]); }
  }

  lemma PositionIs(bytes: seq<Byte>, n: nat)
    requires n < |bytes| && bytes[n] == LF && forall k :: 0 <= k < n ==> bytes[k] != LF
    ensures Position(bytes) == n
  {
    var m := Position(bytes);
    assert m < |bytes| ==> bytes[m] == LF;
  }

  /** The first closed line and the rest. */
  lemma FirstLine(bytes: seq<Byte>)
    requires Position(bytes) < |bytes|
    ensures var n := Position(bytes);
      && bytes == bytes[..n] + [LF] + bytes[n + 1..]
      && ClosedLines(bytes) == [StripCr(bytes[..n])] + ClosedLines(bytes[n + 1..])
      && Remainder(bytes) == Remainder(bytes[n + 1..])
  {
    hide StripCr, ClosedLines, Remainder, Position;
    ClosedStep(bytes);
    RemainderStep(bytes);
    SplitAt(bytes, Position(bytes));
  }

  lemma SplitAt(bytes: seq<Byte>, n: nat)
    requires n < |bytes|
    ensures bytes == bytes[..n] + [bytes[n]] + bytes[n + 1..]
  {
  }

  lemma ClosedStep(bytes: seq<Byte>)
    requires Position(bytes) < |bytes|
    ensures ClosedLines(bytes) == [StripCr(bytes[..Position(bytes)])] + ClosedLines(bytes[Position(bytes) + 1..])
  {
    hide StripCr, Position;
  }

  lemma RemainderStep(bytes: seq<Byte>)
    requires Position(bytes) < |bytes|
    ensures Remainder(bytes) == Remainder(bytes[Position(bytes) + 1..])
  {
    hide Position;
  }

  lemma NoLine(bytes: seq<Byte>)
    requires LF !in bytes
    ensures Position(bytes) == |bytes| && ClosedLines(bytes) == [] && Remainder(bytes) == bytes
  {
  }

  lemma ObserveOneLine(dec: Decoders, protocol: Protocol, c: Captured, line: seq<Byte>)
    requires c.lineBuffer == [] && forall k :: 0 <= k < |line| ==> line[k] != LF
    ensures Observe(dec, protocol, c, line + [LF]) == ObserveLine(dec, protocol, c, StripCr(line))
  {
    ObservePlain(dec, protocol, c, line);
    assert (line + [LF])[..|line|] == line;
    assert [] + line == line && c.(lineBuffer := []) == c;
  }

  /** A capture is a fold over closed lines: the bytes of an unfinished line wait in the buffer. */
  lemma {:induction false} CaptureIsFoldOverLines(dec: Decoders, protocol: Protocol, c: Captured, bytes: seq<Byte>)
    requires c.lineBuffer == []
    ensures Observe(dec, protocol, c, bytes)
         == ObserveLines(dec, protocol, c, ClosedLines(bytes)).(lineBuffer := Remainder(bytes))
    decreases |bytes|
  {
    hide ObserveLine, Observe, StripCr, ClosedLines, Remainder;
    var n := Position(bytes);
    if n == |bytes| {
      ObservePlain(dec, protocol, c, bytes);
      NoLine(bytes);
      assert [] + bytes == bytes;
    } else {
      var line, rest := bytes[..n], bytes[n + 1..];
      FirstLine(bytes);
      ObserveOneLine(dec, protocol, c, line);
      ObserveAppend(dec, protocol, c, line + [LF], rest);
      var next := ObserveLine(dec, protocol, c, StripCr(line));
      LineKeepsBuffer(dec, protocol, c, StripCr(line));
      CaptureIsFoldOverLines(dec, protocol, next, rest);
      var lines := [StripCr(line)] + ClosedLines(rest);
      assert lines[1..] == ClosedLines(rest) && lines[0] == StripCr(line);
    }
  }

  lemma LineKeepsBuffer(dec: Decoders, protocol: Protocol, c: Captured, line: seq<Byte>)
    ensures ObserveLine(dec, protocol, c, line).lineBuffer == c.lineBuffer
  {
  }

  function ObserveLines(dec: Decoders, protocol: Protocol, c: Captured, lines: seq<seq<Byte>>): Captured
    decreases |lines|
  {
    if lines == [] then c else ObserveLines(dec, protocol, ObserveLine(dec, protocol, c, lines[0]), lines[1..])
  }

  // ----- What a capture holds of a stream -----

  /** The data a line carries: behind `data:`, without the white space in front; nothing when it is no text. */
  function DataOf(dec: Decoders, line: seq<Byte>): seq<string> {
    match dec.utf8(line)
    case None => []
    case Some(text) => if |text| >= 5 && text[..5] == "data:" then [TrimStart(text[5..])] else []
  }

  /** The data lines behind the last blank line. */
  function Waiting(dec: Decoders, lines: seq<seq<Byte>>): seq<string> {
    if lines == [] || lines[|lines| - 1] == [] then []
    else Waiting(dec, lines[..|lines| - 1]) + DataOf(dec, lines[|lines| - 1])
  }

  /** The data of every event: each blank line closes one, if data lines wait. */
  function EventData(dec: Decoders, lines: seq<seq<Byte>>): seq<string> {
    if lines == [] then []
    else
      var init, waiting := lines[..|lines| - 1], Waiting(dec, lines[..|lines| - 1]);
      EventData(dec, init) + (if lines[|lines| - 1] == [] && waiting != [] then [Join(waiting)] else [])
  }

  /** The event that completes a stream of this protocol. */
  predicate Completes(dec: Decoders, protocol: Protocol, data: string) {
    match protocol
    case ChatCompletions => TrimEnd(TrimStart(data)) == "[DONE]"
    case ImageGeneration => dec.json(data).Some? && dec.json(data).value.eventType == Some("image_generation.completed")
  }

  /** What an event of a chat stream decodes to, unless it is the closing one. */
  function DeltaOf(dec: Decoders, protocol: Protocol, data: string): seq<Delta> {
    if protocol == ChatCompletions && TrimEnd(TrimStart(data)) != "[DONE]" && dec.json(data).Some?
    then [dec.json(data).value] else []
  }

  function Deltas(dec: Decoders, protocol: Protocol, events: seq<string>): seq<Delta> {
    if events == [] then []
    else Deltas(dec, protocol, events[..|events| - 1]) + DeltaOf(dec, protocol, events[|events| - 1])
  }

  function AllContent(ds: seq<Delta>): string {
    if ds == [] then ""
    else
      var d := ds[|ds| - 1];
      AllContent(ds[..|ds| - 1]) + (if d.content.Some? then d.content.value else "")
  }

  function AllReasoning(ds: seq<Delta>): string {
    if ds == [] then ""
    else
      var d := ds[|ds| - 1];
      AllReasoning(ds[..|ds| - 1]) + (if d.reasoning.Some? then d.reasoning.value else "")
  }

  function AllCalls(ds: seq<Delta>): seq<ToolCallDelta> {
    if ds == [] then [] else AllCalls(ds[..|ds| - 1]) + ds[|ds| - 1].toolCalls
  }

  /** The last id, the last name and all arguments the parts of one tool call give. */
  function LastId(ds: seq<ToolCallDelta>, index: nat): string {
    if ds == [] then ""
    else
      var d := ds[|ds| - 1];
      if d.index == index && d.id.Some? then d.id.value else LastId(ds[..|ds| - 1], index)
  }

  function LastName(ds: seq<ToolCallDelta>, index: nat): string {
    if ds == [] then ""
    else
      var d := ds[|ds| - 1];
      if d.index == index && d.name.Some? then d.name.value else LastName(ds[..|ds| - 1], index)
  }

  function AllArguments(ds: seq<ToolCallDelta>, index: nat): string {
    if ds == [] then ""
    else
      var d := ds[|ds| - 1];
      AllArguments(ds[..|ds| - 1], index) + (if d.index == index && d.arguments.Some? then d.arguments.value else "")
  }

  predicate Mentions(ds: seq<ToolCallDelta>, index: nat) {
    exists k :: 0 <= k < |ds| && ds[k].index == index
  }

  /** One captured call for each index mentioned. */
  ghost predicate CallsAre(calls: map<nat, CapturedToolCall>, ds: seq<ToolCallDelta>) {
    && (forall index: nat :: index in calls <==> Mentions(ds, index))
    && (forall index <- calls ::
         calls[index] == CapturedToolCall(LastId(ds, index), LastName(ds, index), AllArguments(ds, index)))
  }

  lemma OneMoreCall(calls: map<nat, CapturedToolCall>, ds: seq<ToolCallDelta>, d: ToolCallDelta)
    requires CallsAre(calls, ds)
    ensures CallsAre(calls[d.index := ToolCallOf(calls, d)], ds + [d])
  {
    var all, calls' := ds + [d], calls[d.index := ToolCallOf(calls, d)];
    assert all[..|ds|] == ds && all[|ds|] == d;
    forall index: nat ensures index in calls' <==> Mentions(all, index) {
      if Mentions(ds, index) {
        var k :| 0 <= k < |ds| && ds[k].index == index;
        assert all[k].index == index;
      }
    }
    if d.index !in calls { NotMentioned(ds, d.index); }
  }

  lemma {:induction false} NotMentioned(ds: seq<ToolCallDelta>, index: nat)
    requires !Mentions(ds, index)
    ensures LastId(ds, index) == LastName(ds, index) == AllArguments(ds, index) == ""
  {
    if ds == [] {
    } else {
      var init := ds[..|ds| - 1];
      assert forall k :: 0 <= k < |init| ==> init[k] == ds[k];
      NotMentioned(init, index);
    }
  }

  lemma {:induction false} MoreCalls(calls: map<nat, CapturedToolCall>, before: seq<ToolCallDelta>,
      ds: seq<ToolCallDelta>)
    requires CallsAre(calls, before)
    ensures CallsAre(WithToolCalls(calls, ds), before + ds)
  {
    hide CallsAre, ToolCallOf;
    if ds == [] {
      assert before + ds == before;
    } else {
      var init, last := ds[..|ds| - 1], ds[|ds| - 1];
      MoreCalls(calls, before, init);
      OneMoreCall(WithToolCalls(calls, init), before + init, last);
      assert before + init + [last] == before + ds;
    }
  }

  /** The capture holds these waiting data lines, and the texts and tool calls of these deltas. */
  ghost predicate CapturedAs(c: Captured, waiting: seq<string>, ds: seq<Delta>, completed: bool) {
    && c.dataLines == waiting && c.completed == completed
    && c.outputText == AllContent(ds) && c.reasoningText == AllReasoning(ds) && CallsAre(c.toolCalls, AllCalls(ds))
  }

  lemma EventCaptured(dec: Decoders, protocol: Protocol, c: Captured, waiting: seq<string>, ds: seq<Delta>,
      completed: bool)
    requires CapturedAs(c, waiting, ds, completed) && waiting != []
    ensures var data := Join(waiting);
      CapturedAs(FlushEvent(dec, protocol, c), [], ds + DeltaOf(dec, protocol, data),
        completed || Completes(dec, protocol, data))
  {
    hide CallsAre, TrimStart, TrimEnd, Join, WithToolCalls;
    var data := Join(waiting);
    var more := DeltaOf(dec, protocol, data);
    if more == [] {
      assert ds + more == ds;
    } else {
      assert (ds + more)[..|ds|] == ds && (ds + more)[|ds|] == dec.json(data).value;
      MoreCalls(c.toolCalls, AllCalls(ds), dec.json(data).value.toolCalls);
    }
  }

  /** One of the events completes the stream. */
  predicate AnyCompletes(dec: Decoders, protocol: Protocol, events: seq<string>) {
    exists k :: 0 <= k < |events| && Completes(dec, protocol, events[k])
  }

  /** What a capture holds once these lines have been observed. */
  ghost predicate Captures(dec: Decoders, protocol: Protocol, c: Captured, lines: seq<seq<Byte>>) {
    var events := EventData(dec, lines);
    CapturedAs(c, Waiting(dec, lines), Deltas(dec, protocol, events), AnyCompletes(dec, protocol, events))
  }

  lemma LinesSnoc(dec: Decoders, protocol: Protocol, c: Captured, lines: seq<seq<Byte>>, line: seq<Byte>)
    ensures ObserveLines(dec, protocol, c, lines + [line])
      == ObserveLine(dec, protocol, ObserveLines(dec, protocol, c, lines), line)
    decreases |lines|
  {
    hide ObserveLine;
    if lines == [] {
      assert [] + [line] == [line] && [line][1..] == [];
    } else {
      assert (lines + [line])[1..] == lines[1..] + [line];
      LinesSnoc(dec, protocol, ObserveLine(dec, protocol, c, lines[0]), lines[1..], line);
    }
  }

  lemma LineCaptured(dec: Decoders, protocol: Protocol, c: Captured, lines: seq<seq<Byte>>, line: seq<Byte>)
    requires Captures(dec, protocol, c, lines)
    ensures Captures(dec, protocol, ObserveLine(dec, protocol, c, line), lines + [line])
  {
    hide CallsAre, Completes, TrimStart, TrimEnd, DeltaOf, FlushEvent, Join, AllContent, AllReasoning, AllCalls;
    var all, events, waiting := lines + [line], EventData(dec, lines), Waiting(dec, lines);
    assert all[..|lines|] == lines && all[|lines|] == line && events + [] == events;
    if line != [] {
      if dec.utf8(line).Some? { Prefixed(dec.utf8(line).value); }
      assert waiting + [] == waiting;
    } else if waiting != [] {
      EventCaptured(dec, protocol, c, waiting, Deltas(dec, protocol, events), AnyCompletes(dec, protocol, events));
      EventsSnoc(dec, protocol, events, Join(waiting));
    } else {
      NothingWaits(dec, protocol, c);
    }
  }

  lemma NothingWaits(dec: Decoders, protocol: Protocol, c: Captured)
    requires c.dataLines == []
    ensures FlushEvent(dec, protocol, c) == c
  {
  }

  lemma EventsSnoc(dec: Decoders, protocol: Protocol, events: seq<string>, data: string)
    ensures Deltas(dec, protocol, events + [data]) == Deltas(dec, protocol, events) + DeltaOf(dec, protocol, data)
    ensures AnyCompletes(dec, protocol, events + [data]) <==>
      AnyCompletes(dec, protocol, events) || Completes(dec, protocol, data)
  {
    hide DeltaOf, Completes;
    var all := events + [data];
    assert all[..|events|] == events && all[|events|] == data;
    assert forall k :: 0 <= k < |events| ==> all[k] == events[k];
  }

  lemma Prefixed(text: string)
    ensures "data:" <= text <==> |text| >= 5 && text[..5] == "data:"
  {
  }

  lemma {:induction false} LinesCaptured(dec: Decoders, protocol: Protocol, lines: seq<seq<Byte>>)
    ensures Captures(dec, protocol, ObserveLines(dec, protocol, NothingCaptured, lines), lines)
  {
    if lines == [] {
    } else {
      hide Captures, ObserveLine;
      var init, last := lines[..|lines| - 1], lines[|lines| - 1];
      LinesCaptured(dec, protocol, init);
      LinesSnoc(dec, protocol, NothingCaptured, init, last);
      LineCaptured(dec, protocol, ObserveLines(dec, protocol, NothingCaptured, init), init, last);
      assert init + [last] == lines;
    }
  }

  /**
   What a finished capture holds of a stream, however it was cut into chunks: the text is the content of the
   decoded events, in order, the reasoning theirs, each tool call the last id and name and all arguments given
   under its index, and it is complete exactly when an event of its protocol closed the stream. The events are
   those of the stream's lines, the last one closed by the end of the stream if need be.
   */
  lemma CaptureMeaning(dec: Decoders, protocol: Protocol, chunks: seq<seq<Byte>>)
    ensures var c := FinishCapture(dec, protocol, ObserveAll(dec, protocol, NothingCaptured, chunks));
      var events := EventData(dec, ClosedLines(Flatten(chunks) + [CR, LF, LF]));
      var ds := Deltas(dec, protocol, events);
      && c.outputText == AllContent(ds) && c.reasoningText == AllReasoning(ds)
      && CallsAre(c.toolCalls, AllCalls(ds))
      && (c.completed <==> AnyCompletes(dec, protocol, events))
  {
    hide FinishCapture, ObserveAll, Observe, ObserveLines, ClosedLines, EventData, Deltas, CallsAre, AnyCompletes;
    var bytes := Flatten(chunks) + [CR, LF, LF];
    FinishedStream(dec, protocol, NothingCaptured, chunks);
    CaptureIsFoldOverLines(dec, protocol, NothingCaptured, bytes);
    LinesCaptured(dec, protocol, ClosedLines(bytes));
  }

  // ----- Joining and trimming -----

  /** Data lines are joined in order, with line feeds between them. */
  lemma {:induction false} JoinAppend(a: seq<string>, b: seq<string>)
    requires a != [] && b != []
    ensures Join(a + b) == Join(a) + "\n" + Join(b)
  {
    assert (a + b)[..|a + b| - 1] == a + b[..|b| - 1];
    if |b| == 1 {
      assert a + b[..0] == a;
    } else {
      JoinAppend(a, b[..|b| - 1]);
      JoinLast(b);
      JoinLast(a + b);
      hide Join;
      var init, last := Join(b[..|b| - 1]), b[|b| - 1];
      assert Join(a) + "\n" + init + "\n" + last == Join(a) + "\n" + (init + "\n" + last);
    }
  }

  lemma JoinLast(lines: seq<string>)
    requires |lines| > 1
    ensures Join(lines) == Join(lines[..|lines| - 1]) + "\n" + lines[|lines| - 1]
  {
  }

  lemma JoinOne(line: string)
    ensures Join([line]) == line && Join([]) == ""
  {
  }

  /** Trimming takes away the white space in front and behind, and nothing else. */
  lemma {:induction false} TrimStartMeaning(s: string) returns (n: nat)
    ensures n <= |s| && TrimStart(s) == s[n..]
    ensures forall k :: 0 <= k < n ==> IsWhitespace(s[k])
    ensures n < |s| ==> !IsWhitespace(s[n])
  {
    if s != "" && IsWhitespace(s[0]) {
      hide IsWhitespace;
      n := TrimStartMeaning(s[1..]);
      n := n + 1;
    } else {
      n := 0;
    }
  }

  lemma {:induction false} TrimEndMeaning(s: string) returns (n: nat)
    ensures n <= |s| && TrimEnd(s) == s[..n]
    ensures forall k :: n <= k < |s| ==> IsWhitespace(s[k])
    ensures n > 0 ==> !IsWhitespace(s[n - 1])
  {
    if s != "" && IsWhitespace(s[|s| - 1]) {
      hide IsWhitespace;
      n := TrimEndMeaning(s[..|s| - 1]);
    } else {
      n := |s|;
    }
  }

  /** Spaces, tabs and line ends are white space; the printing characters of ASCII are not. */
  lemma WhitespaceInAscii(c: char)
    requires c as int < 0x80
    ensures IsWhitespace(c) <==> c == ' ' || c == '\t' || c == '\n' || c == '\r' || c as int == 0x0B || c as int == 0x0C
  {
  }

  /** Closed lines and remainder make up the bytes again, when no carriage return has been taken off. */
  lemma {:induction false} LinesMakeBytes(bytes: seq<Byte>)
    requires CR !in bytes
    ensures WithFeeds(ClosedLines(bytes)) + Remainder(bytes) == bytes
    decreases |bytes|
  {
    hide ClosedLines, Remainder, Position;
    var n := Position(bytes);
    if n == |bytes| {
      NoLine(bytes);
      assert WithFeeds([]) + bytes == bytes;
    } else {
      var line, rest := bytes[..n], bytes[n + 1..];
      FirstLine(bytes);
      LinesMakeBytes(rest);
      assert StripCr(line) == line;
      assert ([line] + ClosedLines(rest))[1..] == ClosedLines(rest);
      var tail := WithFeeds(ClosedLines(rest));
      assert line + [LF] + tail + Remainder(rest) == line + [LF] + (tail + Remainder(rest));
    }
  }

  function WithFeeds(lines: seq<seq<Byte>>): seq<Byte> {
    if lines == [] then [] else lines[0] + [LF] + WithFeeds(lines[1..])
  }

  /** A decoder's line buffer, drained in place. */
  class LineBuffer {
    var bytes: seq<Byte>

    constructor ()
      ensures bytes == []
    {
      bytes := [];
    }

    method Push(chunk: seq<Byte>)
      modifies this
      ensures bytes == old(bytes) + chunk
    {
      bytes := bytes + chunk;
    }

    /** `drain_lines` */
    method DrainLines() returns (lines: seq<seq<Byte>>)
      modifies this
      ensures lines == ClosedLines(old(bytes)) && bytes == Remainder(old(bytes))
    {
      hide ClosedLines, Remainder;
      lines := [];
      while Position(bytes) < |bytes|
        invariant lines + ClosedLines(bytes) == ClosedLines(old(bytes))
        invariant Remainder(bytes) == Remainder(old(bytes))
        decreases |bytes|
      {
        FirstLine(bytes);
        var newline := Position(bytes);
        var line := bytes[..newline + 1];
        ghost var closed := bytes[..newline];
        bytes := bytes[newline + 1..];
        if line != [] && line[|line| - 1] == LF { line := line[..|line| - 1]; }
        assert line == closed;
        if line != [] && line[|line| - 1] == CR { line := line[..|line| - 1]; }
        assert lines + ([line] + ClosedLines(bytes)) == lines + [line] + ClosedLines(bytes);
        lines := lines + [line];
      }
      NoLine(bytes);
    }
  }

  /** Draining after each push yields, over all pushes, the lines of everything that was pushed. */
  lemma {:induction false} DrainsCompose(a: seq<Byte>, b: seq<Byte>)
    ensures ClosedLines(a + b) == ClosedLines(a) + ClosedLines(Remainder(a) + b)
    ensures Remainder(a + b) == Remainder(Remainder(a) + b)
    decreases |a|
  {
    hide ClosedLines, Remainder, StripCr;
    var n := Position(a);
    if n < |a| {
      var rest := a[n + 1..];
      PositionIs(a + b, n);
      FirstLine(a);
      FirstLine(a + b);
      assert (a + b)[..n] == a[..n] && (a + b)[n + 1..] == rest + b;
      DrainsCompose(rest, b);
    } else {
      NoLine(a);
      assert [] + ClosedLines(a + b) == ClosedLines(a + b);
    }
  }

  /** The lines of a push-and-drain run over chunks, and what is left in the buffer. */
  function DrainRun(buffer: seq<Byte>, chunks: seq<seq<Byte>>): (seq<seq<Byte>>, seq<Byte>)
    decreases |chunks|
  {
    if chunks == [] then ([], buffer)
    else
      var (lines, rest) := DrainRun(Remainder(buffer + chunks[0]), chunks[1..]);
      (ClosedLines(buffer + chunks[0]) + lines, rest)
  }

  /** However the bytes arrive, the drained lines are those of the concatenation. */
  lemma {:induction false} DrainRunIsWhole(buffer: seq<Byte>, chunks: seq<seq<Byte>>)
    requires LF !in buffer
    ensures DrainRun(buffer, chunks) == (ClosedLines(buffer + Flatten(chunks)), Remainder(buffer + Flatten(chunks)))
    decreases |chunks|
  {
    hide ClosedLines, Remainder, Position;
    if chunks == [] {
      assert buffer + [] == buffer;
      NoLine(buffer);
    } else {
      var first, more := buffer + chunks[0], Flatten(chunks[1..]);
      RemainderIsTail(first);
      DrainRunIsWhole(Remainder(first), chunks[1..]);
      DrainsCompose(first, more);
      assert buffer + Flatten(chunks) == first + more;
    }
  }

  // ----- The response pipeline -----

  datatype Item<+C> = Chunk(chunk: C) | Failure(message: string)

  /** A byte stream decoder, as a state with its two operations. */
  datatype Stages<!D> = Stages(push: (D, seq<Byte>) -> (D, seq<seq<Byte>>), finish: D -> (D, seq<seq<Byte>>))

  function Chunks(outputs: seq<seq<Byte>>): seq<Item<seq<Byte>>> {
    seq(|outputs|, k requires 0 <= k < |outputs| => Chunk(outputs[k]))
  }

  /** What a client should see: each chunk's outputs in place, errors in place, then the final outputs. */
  function Mapped<D>(stages: Stages<D>, d: D, upstream: seq<Item<seq<Byte>>>): seq<Item<seq<Byte>>> {
    if upstream == [] then Chunks(stages.finish(d).1)
    else
      match upstream[0]
      case Failure(message) => [Failure(message)] + Mapped(stages, d, upstream[1..])
      case Chunk(bytes) =>
        var (d', outputs) := stages.push(d, bytes);
        Chunks(outputs) + Mapped(stages, d', upstream[1..])
  }

  /** The unfold state of `map_response_stream_with_stats_and_head`. */
  class ResponsePipe<D> {
    const stages: Stages<D>
    var upstream: seq<Item<seq<Byte>>>
    var decoder: D
    var pending: seq<seq<Byte>>
    var upstreamDone: bool

    constructor (stages: Stages<D>, decoder: D, upstream: seq<Item<seq<Byte>>>)
      ensures Pending() == Mapped(stages, decoder, upstream)
    {
      this.stages, this.decoder, this.upstream := stages, decoder, upstream;
      pending, upstreamDone := [], false;
      new;
      assert Chunks([]) + Mapped(stages, decoder, upstream) == Mapped(stages, decoder, upstream);
    }

    /** Everything the pipe is still going to emit. */
    ghost function Pending(): seq<Item<seq<Byte>>>
      reads this
    {
      Chunks(pending) + (if upstreamDone then [] else Mapped(stages, decoder, upstream))
    }

    /** One item of the stream, or its end. */
    method Next() returns (item: Option<Item<seq<Byte>>>)
      modifies this
      ensures old(Pending()) == [] ==> item == None && Pending() == []
      ensures old(Pending()) != [] ==> item == Some(old(Pending())[0]) && Pending() == old(Pending())[1..]
    {
      hide Chunks, Mapped;
      while true
        invariant Pending() == old(Pending())
        decreases !upstreamDone, |upstream|, |pending|
      {
        if pending != [] {
          ChunksHead(pending, if upstreamDone then [] else Mapped(stages, decoder, upstream));
          item := Some(Chunk(pending[0]));
          pending := pending[1..];
          return;
        }
        NoChunks(if upstreamDone then [] else Mapped(stages, decoder, upstream));
        if upstreamDone { return None; }
        MappedNow(stages, decoder, upstream);
        if upstream == [] {
          upstreamDone := true;
          var (d, outputs) := stages.finish(decoder);
          decoder, pending := d, outputs;
        } else {
          var next := upstream[0];
          upstream := upstream[1..];
          match next {
            case Chunk(bytes) =>
              var (d, outputs) := stages.push(decoder, bytes);
              decoder, pending := d, outputs;
            case Failure(message) =>
              NoChunks(Mapped(stages, decoder, upstream));
              item := Some(Failure(message));
              return;
          }
        }
      }
    }
  }

  lemma ChunksHead(outputs: seq<seq<Byte>>, tail: seq<Item<seq<Byte>>>)
    requires outputs != []
    ensures var all := Chunks(outputs) + tail;
      all != [] && all[0] == Chunk(outputs[0]) && all[1..] == Chunks(outputs[1..]) + tail
  {
  }

  lemma NoChunks(tail: seq<Item<seq<Byte>>>)
    ensures Chunks([]) + tail == tail
  {
    assert Chunks([]) == [];
  }

  lemma MappedNow<D>(stages: Stages<D>, d: D, upstream: seq<Item<seq<Byte>>>)
    ensures upstream == [] ==> Mapped(stages, d, upstream) == Chunks(stages.finish(d).1) + []
    ensures upstream != [] && upstream[0].Chunk? ==>
      var (d', outputs) := stages.push(d, upstream[0].chunk);
      Mapped(stages, d, upstream) == Chunks(outputs) + Mapped(stages, d', upstream[1..])
    ensures upstream != [] && upstream[0].Failure? ==>
      Mapped(stages, d, upstream) == [upstream[0]] + Mapped(stages, d, upstream[1..])
  {
    hide Chunks;
    if upstream == [] { assert Chunks(stages.finish(d).1) + [] == Chunks(stages.finish(d).1); }
  }

  /** The decoder's outputs over a list of chunks, in order, and the decoder afterwards. */
  function PushAll<D>(stages: Stages<D>, d: D, chunks: seq<seq<Byte>>): (D, seq<seq<Byte>>) {
    if chunks == [] then (d, [])
    else
      var (d', outputs) := stages.push(d, chunks[0]);
      var (d'', more) := PushAll(stages, d', chunks[1..]);
      (d'', outputs + more)
  }

  /** Without upstream errors the client sees all outputs of the chunks in order, then those of `finish`. */
  lemma {:induction false} ErrorFreePipe<D>(stages: Stages<D>, d: D, chunks: seq<seq<Byte>>)
    ensures var (d', outputs) := PushAll(stages, d, chunks);
      Mapped(stages, d, Chunks(chunks)) == Chunks(outputs + stages.finish(d').1)
  {
    if chunks == [] {
      assert [] + stages.finish(d).1 == stages.finish(d).1;
    } else {
      var (d', outputs) := stages.push(d, chunks[0]);
      ErrorFreePipe(stages, d', chunks[1..]);
      assert Chunks(chunks)[1..] == Chunks(chunks[1..]);
      var (d'', more) := PushAll(stages, d', chunks[1..]);
      assert outputs + more + stages.finish(d'').1 == outputs + (more + stages.finish(d'').1);
      assert Chunks(outputs + (more + stages.finish(d'').1)) == Chunks(outputs) + Chunks(more + stages.finish(d'').1);
    }
  }

  /** An upstream error reaches the client in its place: behind all outputs of the chunks before it. */
  lemma {:induction false} FailureInPlace<D>(stages: Stages<D>, d: D, chunks: seq<seq<Byte>>, message: string,
      rest: seq<Item<seq<Byte>>>)
    ensures var (d', outputs) := PushAll(stages, d, chunks);
      Mapped(stages, d, Chunks(chunks) + [Failure(message)] + rest)
        == Chunks(outputs) + [Failure(message)] + Mapped(stages, d', rest)
  {
    var items := Chunks(chunks) + [Failure(message)] + rest;
    if chunks == [] {
      assert items[0] == Failure(message) && items[1..] == rest;
      assert Chunks([]) + [Failure(message)] == [Failure(message)];
    } else {
      hide Mapped;
      var (d', outputs) := stages.push(d, chunks[0]);
      FailureInPlace(stages, d', chunks[1..], message, rest);
      assert items[0] == Chunk(chunks[0]) && items[1..] == Chunks(chunks[1..]) + [Failure(message)] + rest;
      MappedNow(stages, d, items);
      var (d'', more) := PushAll(stages, d', chunks[1..]);
      ChunksAppend(outputs, more);
      var tail := Mapped(stages, d'', rest);
      assert Chunks(outputs) + (Chunks(more) + [Failure(message)] + tail)
        == Chunks(outputs) + Chunks(more) + [Failure(message)] + tail;
    }
  }

  lemma ChunksAppend(a: seq<seq<Byte>>, b: seq<seq<Byte>>)
    ensures Chunks(a + b) == Chunks(a) + Chunks(b)
  {
  }
}
