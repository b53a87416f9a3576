/**
 Reading a thread back (`store/rollout/read.rs`): parsing a file, repairing its tail, choosing the
 segment to continue, and cutting out the lines of one turn.
 */
module Reader {
  import opened Basics
  import opened Text
  import opened Conversation
  import opened ThreadStates

  /** `RolloutError`, without the I/O case. */
  datatype Fault = Serialize | InvalidPath | PartialLine

  datatype Parsed = Parsed(format: Format, events: seq<Event>, lineCount: nat, lastSeq: nat)

  /** The events of lines behind the header; `None` when one of them does not parse. */
  function EventsOf(values: seq<LineValue>): Option<seq<Event>> {
    if values == [] then Some([])
    else
      var init, last := EventsOf(values[..|values| - 1]), values[|values| - 1];
      if init.None? || last.Garbage? then None
      else if last.Record? then Some(init.value + [last.event])
      else init
  }

  function MaxSeq(events: seq<Event>): nat {
    if events == [] then 0
    else Max(MaxSeq(events[..|events| - 1]), events[|events| - 1].seqNo)
  }

  /** The decision taken on the first line: an error, or the format and the first event line. */
  function ReadHeader(values: seq<LineValue>): (r: Result<(Format, nat), Fault>)
    ensures r.Ok? ==> r.value.1 <= |values|
  {
    if values == [] then Ok((Legacy, 0))
    else
      match values[0]
      case Garbage => Err(Serialize)
      case UnsupportedHeader => Err(InvalidPath)
      case MalformedHeader => Err(Serialize)
      case Header(thread) => if thread == "" then Err(InvalidPath) else Ok((V1, 1))
      case _ => Ok((Legacy, 0))
  }

  /** `parse_conversation_contents`, on the values of the lines. */
  function Parse(values: seq<LineValue>): Result<Parsed, Fault> {
    match ReadHeader(values)
    case Err(fault) => Err(fault)
    case Ok((format, start)) =>
      match EventsOf(values[start..])
      case None => Err(Serialize)
      case Some(events) => Ok(Parsed(format, events, |values|, MaxSeq(events)))
  }

  /** The loops of `parse_conversation_contents`. */
  method ParseContents(wire: Wire, contents: string) returns (r: Result<Parsed, Fault>)
    ensures r == Parse(Decode(wire, Lines(contents)))
  {
    var lines := Lines(contents);
    ghost var values := Decode(wire, lines);
    var format := Legacy;
    var start := 0;
    if lines != [] {
      match wire.parse(lines[0]) {
        case Garbage => return Err(Serialize);
        case UnsupportedHeader => return Err(InvalidPath);
        case MalformedHeader => return Err(Serialize);
        case Header(thread) =>
          if thread == "" { return Err(InvalidPath); }
          format, start := V1, 1;
        case _ =>
      }
    }
    hide EventsOf, MaxSeq;
    var events := [];
    var lastSeq := 0;
    NoEvents();
    assert values[start..start] == [];
    for i := start to |lines|
      invariant EventsOf(values[start..i]) == Some(events)
      invariant lastSeq == MaxSeq(events)
    {
      EventsUpTo(values, start, i);
      match wire.parse(lines[i]) {
        case Garbage =>
          GarbageAnywhere(values[start..], i - start);
          return Err(Serialize);
        case Record(event) =>
          lastSeq := if event.seqNo > lastSeq then event.seqNo else lastSeq;
          MaxSeqLast(events, event);
          events := events + [event];
        case _ =>
      }
    }
    assert values[start..|lines|] == values[start..];
    r := Ok(Parsed(format, events, |lines|, lastSeq));
  }

  lemma NoEvents()
    ensures EventsOf([]) == Some([]) && MaxSeq([]) == 0
  {
  }

  lemma MaxSeqLast(events: seq<Event>, event: Event)
    ensures MaxSeq(events + [event]) == Max(MaxSeq(events), event.seqNo)
  {
    assert (events + [event])[..|events|] == events;
  }

  /** One more line: garbage spoils the list, an event extends it, any other line leaves it. */
  lemma EventsUpTo(values: seq<LineValue>, start: nat, i: nat)
    requires start <= i < |values|
    ensures var before, after := EventsOf(values[start..i]), EventsOf(values[start..i + 1]);
      if before.None? || values[i].Garbage? then after == None
      else if values[i].Record? then after == Some(before.value + [values[i].event])
      else after == before
  {
    var some := values[start..i + 1];
    assert some[..|some| - 1] == values[start..i] && some[|some| - 1] == values[i];
  }

  lemma {:induction false} GarbageAnywhere(values: seq<LineValue>, k: nat)
    requires k < |values| && values[k].Garbage?
    ensures EventsOf(values).None?
  {
    if k < |values| - 1 { GarbageAnywhere(values[..|values| - 1], k); }
  }

  lemma {:induction false} EventsOfAppend(a: seq<LineValue>, b: seq<LineValue>)
    ensures EventsOf(a + b) ==
      if EventsOf(a).None? || EventsOf(b).None? then None else Some(EventsOf(a).value + EventsOf(b).value)
  {
    if b == [] {
      assert a + b == a;
      assert EventsOf(a).Some? ==> EventsOf(a).value + [] == EventsOf(a).value;
    } else {
      var init := b[..|b| - 1];
      assert (a + b)[..|a + b| - 1] == a + init;
      EventsOfAppend(a, init);
      if EventsOf(a).Some? && EventsOf(b).Some? && b[|b| - 1].Record? {
        var e := b[|b| - 1].event;
        assert EventsOf(a).value + (EventsOf(init).value + [e]) == (EventsOf(a).value + EventsOf(init).value) + [e];
      }
    }
  }

  lemma {:induction false} MaxSeqAppend(a: seq<Event>, b: seq<Event>)
    ensures MaxSeq(a + b) == Max(MaxSeq(a), MaxSeq(b))
  {
    if b == [] {
      assert a + b == a;
    } else {
      assert (a + b)[..|a + b| - 1] == a + b[..|b| - 1];
      MaxSeqAppend(a, b[..|b| - 1]);
    }
  }

  lemma HeaderIsStable(a: seq<LineValue>, b: seq<LineValue>)
    requires a != []
    ensures ReadHeader(a + b) == ReadHeader(a)
  {
    assert (a + b)[0] == a[0];
  }

  /** A file that fails to parse keeps failing, with the same error, whatever is appended to it. */
  lemma FaultsAreStable(a: seq<LineValue>, b: seq<LineValue>)
    requires Parse(a).Err?
    ensures Parse(a + b) == Parse(a)
  {
    HeaderIsStable(a, b);
    if ReadHeader(a).Ok? {
      var start := ReadHeader(a).value.1;
      assert (a + b)[start..] == a[start..] + b;
      EventsOfAppend(a[start..], b);
    }
  }

  /** What is read from `p` once the event lines `more` stand behind it. */
  function Extend(p: Parsed, count: nat, more: seq<Event>): Parsed {
    Parsed(p.format, p.events + more, p.lineCount + count, Max(p.lastSeq, MaxSeq(more)))
  }

  /** Appending to a nonempty readable file extends what is read, or spoils it when a line does not parse. */
  lemma ParseAppend(a: seq<LineValue>, b: seq<LineValue>)
    requires a != [] && Parse(a).Ok?
    ensures Parse(a + b) ==
      if EventsOf(b).Some? then Ok(Extend(Parse(a).value, |b|, EventsOf(b).value)) else Err(Serialize)
  {
    hide EventsOf, MaxSeq, ReadHeader;
    HeaderIsStable(a, b);
    var start := ReadHeader(a).value.1;
    var tail := a[start..];
    assert (a + b)[start..] == tail + b;
    EventsOfAppend(tail, b);
    if EventsOf(b).Some? { MaxSeqAppend(EventsOf(tail).value, EventsOf(b).value); }
  }

  // ----- What a file says, line by line -----

  /** The events of all lines that record one, in file order. */
  function RecordedEvents(values: seq<LineValue>): seq<Event> {
    if values == [] then []
    else (if values[0].Record? then [values[0].event] else []) + RecordedEvents(values[1..])
  }

  /** A first line that makes the file one of another version: an unsupported header, or one without a thread. */
  predicate OtherVersion(values: seq<LineValue>) {
    values != [] && (values[0].UnsupportedHeader? || values[0] == Header(""))
  }

  /** A line that is no stored line, or a first line that is a broken header. */
  predicate HasBrokenLine(values: seq<LineValue>) {
    (values != [] && values[0].MalformedHeader?) || exists v <- values :: v.Garbage?
  }

  lemma RecordedOne(v: LineValue)
    ensures RecordedEvents([v]) == if v.Record? then [v.event] else []
  {
    assert [v][1..] == [] && RecordedEvents([]) == [];
  }

  lemma RecordedCons(v: LineValue, rest: seq<LineValue>)
    ensures RecordedEvents([v] + rest) == RecordedEvents([v]) + RecordedEvents(rest)
  {
    RecordedOne(v);
    assert ([v] + rest)[1..] == rest;
  }

  lemma {:induction false} RecordedAppend(a: seq<LineValue>, b: seq<LineValue>)
    ensures RecordedEvents(a + b) == RecordedEvents(a) + RecordedEvents(b)
  {
    if a == [] {
      assert a + b == b;
    } else {
      RecordedCons(a[0], a[1..]);
      RecordedCons(a[0], a[1..] + b);
      RecordedAppend(a[1..], b);
      assert [a[0]] + a[1..] == a && [a[0]] + (a[1..] + b) == a + b;
      hide RecordedEvents;
      var first, more := RecordedEvents([a[0]]), RecordedEvents(a[1..]);
      assert first + (more + RecordedEvents(b)) == first + more + RecordedEvents(b);
    }
  }

  /** The events of a list of lines are those recorded in it, unless one of them is no stored line. */
  lemma {:induction false} EventsAreRecorded(values: seq<LineValue>)
    ensures EventsOf(values) == if exists v <- values :: v.Garbage? then None else Some(RecordedEvents(values))
  {
    if values == [] {
    } else {
      var init, last := values[..|values| - 1], values[|values| - 1];
      EventsAreRecorded(init);
      RecordedAppend(init, [last]);
      RecordedOne(last);
      assert values == init + [last] && RecordedEvents(init) + [] == RecordedEvents(init);
    }
  }

  /** The largest number among the events, 0 when there is none. */
  lemma {:induction false} MaxSeqIsLargest(events: seq<Event>)
    ensures forall e <- events :: e.seqNo <= MaxSeq(events)
    ensures MaxSeq(events) == 0 || exists e <- events :: e.seqNo == MaxSeq(events)
  {
    if events == [] {
    } else {
      MaxSeqIsLargest(events[..|events| - 1]);
      assert events == events[..|events| - 1] + [events[|events| - 1]];
    }
  }

  /**
   What parsing yields, with or without a header: the file is refused exactly when its first line is of another
   version, it is corrupt exactly when it is not refused and a line is broken, and otherwise its events are
   those of all its lines, in order, its format follows from whether it starts with a header, and the last
   number is the largest one.
   */
  lemma ParseMeaning(values: seq<LineValue>)
    ensures Parse(values) == Err(InvalidPath) <==> OtherVersion(values)
    ensures Parse(values) == Err(Serialize) <==> !OtherVersion(values) && HasBrokenLine(values)
    ensures Parse(values).Ok? <==> !OtherVersion(values) && !HasBrokenLine(values)
    ensures Parse(values).Ok? ==>
      var p := Parse(values).value;
      && p.events == RecordedEvents(values) && p.lineCount == |values|
      && p.format == (if values != [] && values[0].Header? then V1 else Legacy)
      && (forall e <- p.events :: e.seqNo <= p.lastSeq)
      && (p.lastSeq == 0 || exists e <- p.events :: e.seqNo == p.lastSeq)
  {
    hide EventsOf, MaxSeq;
    EventsAreRecorded(values);
    MaxSeqIsLargest(RecordedEvents(values));
    if values != [] {
      EventsAreRecorded(values[1..]);
      assert values == [values[0]] + values[1..];
    }
  }

  // ----- Files, tail repair and the choice of a segment -----

  datatype File = File(text: string, modified: nat)

  type Disk = map<Path, File>

  const MaxRecoveredSegments: nat := 10

  function StampOf(file: File): Stamp {
    Stamp(|file.text|, Some(file.modified))
  }

  datatype Candidate = Missing | Corrupt | Broken(fault: Fault) | Readable(parsed: Parsed)

  /** What `read_thread_events` finds: the complete lines decide; a torn tail is never parsed. */
  function Inspect(wire: Wire, disk: Disk, path: Path): Candidate {
    if path !in disk then Missing
    else
      match Parse(Values(wire, disk[path].text))
      case Ok(parsed) => Readable(parsed)
      case Err(fault) => if fault == Serialize then Corrupt else Broken(fault)
  }

  /**
   A candidate is missing when there is no such file; otherwise its complete lines decide: broken when they are
   of another version, corrupt when one of them is broken, and else readable with what they say.
   */
  lemma InspectMeaning(wire: Wire, disk: Disk, path: Path)
    ensures Inspect(wire, disk, path).Missing? <==> path !in disk
    ensures path in disk ==>
      var values := Values(wire, disk[path].text);
      && (Inspect(wire, disk, path).Broken? <==> OtherVersion(values))
      && (Inspect(wire, disk, path).Corrupt? <==> !OtherVersion(values) && HasBrokenLine(values))
      && (Inspect(wire, disk, path).Readable? ==> Inspect(wire, disk, path).parsed.events == RecordedEvents(values))
  {
    hide Parse, Values;
    if path in disk { ParseMeaning(Values(wire, disk[path].text)); }
  }

  /** `set_len` on a torn file; a complete file is not touched. */
  function RepairFile(disk: Disk, path: Path, now: nat): (repaired: Disk)
    requires path in disk
    ensures repaired.Keys == disk.Keys
    ensures forall other <- disk :: other != path ==> repaired[other] == disk[other]
  {
    var text := disk[path].text;
    if Complete(text) then disk else disk[path := File(Repair(text), now)]
  }

  /** The eleven candidate files of a thread, in the order they are tried. */
  function Candidates(wire: Wire, disk: Disk, key: Key): (cs: seq<Candidate>)
    ensures |cs| == MaxRecoveredSegments + 1
    ensures forall i :: 0 <= i < |cs| ==> cs[i] == Inspect(wire, disk, Path(key, i))
  {
    seq(MaxRecoveredSegments + 1, i requires 0 <= i => Inspect(wire, disk, Path(key, i)))
  }

  datatype Choice = Use(segment: nat, parsed: Parsed) | Start(segment: nat) | Fail(fault: Fault)

  /** The loop over the recovered segments from `index` on. */
  function ChooseRecovered(cs: seq<Candidate>, index: nat): Choice
    requires 1 <= index <= |cs|
    decreases |cs| - index
  {
    if index == |cs| then Fail(InvalidPath)
    else
      match cs[index]
      case Readable(parsed) => Use(index, parsed)
      case Corrupt => ChooseRecovered(cs, index + 1)
      case Missing => if cs[0].Missing? && index == 1 then Start(0) else Start(index)
      case Broken(fault) => Fail(fault)
  }

  /** `load_thread_source`, as a choice among the candidates. */
  function Choose(cs: seq<Candidate>): Choice
    requires cs != []
  {
    match cs[0]
    case Readable(parsed) => Use(0, parsed)
    case Missing => ChooseRecovered(cs, 1)
    case Corrupt => ChooseRecovered(cs, 1)
    case Broken(fault) => Fail(fault)
  }

  /** The `for` loop of `load_thread_source`, inspecting one candidate at a time. */
  method ChooseSegment(wire: Wire, disk: Disk, key: Key) returns (choice: Choice)
    ensures choice == Choose(Candidates(wire, disk, key))
  {
    ghost var cs := Candidates(wire, disk, key);
    var base := Inspect(wire, disk, Path(key, 0));
    if base.Readable? { return Use(0, base.parsed); }
    if base.Broken? { return Fail(base.fault); }
    for index := 1 to MaxRecoveredSegments + 1
      invariant Choose(cs) == ChooseRecovered(cs, index)
    {
      match Inspect(wire, disk, Path(key, index)) {
        case Readable(parsed) => return Use(index, parsed);
        case Corrupt =>
        case Missing =>
          choice := if base.Missing? && index == 1 then Start(0) else Start(index);
          return;
        case Broken(fault) => return Fail(fault);
      }
    }
    choice := Fail(InvalidPath);
  }

  /** Every candidate in front of this one was given up: corrupt, or an absent base. */
  predicate GivenUpBefore(cs: seq<Candidate>, n: nat)
    requires n <= |cs|
  {
    forall i | 0 <= i < n :: cs[i].Corrupt? || (i == 0 && cs[i].Missing?)
  }

  /**
   The first candidate that is not given up decides: it is used when readable, started when absent
   (the base is started when base and segment 1 are both absent), and otherwise the load fails. When
   all recovered segments are corrupt the load fails too. A corrupt file is never picked.
   */
  ghost predicate ChoiceMeaning(cs: seq<Candidate>, choice: Choice)
    requires |cs| >= 2
  {
    match choice
    case Use(j, parsed) => j < |cs| && GivenUpBefore(cs, j) && cs[j] == Readable(parsed)
    case Start(j) =>
      && j < |cs| && GivenUpBefore(cs, j) && cs[j].Missing?
      && (j == 0 ==> cs[1].Missing?)
      && (j == 1 ==> cs[0].Corrupt?)
    case Fail(fault) =>
      || (fault == InvalidPath && GivenUpBefore(cs, |cs|))
      || exists i :: 0 <= i < |cs| && GivenUpBefore(cs, i) && cs[i] == Broken(fault)
  }

  lemma {:induction false} ChooseRecoveredMeaning(cs: seq<Candidate>, index: nat)
    requires 1 <= index <= |cs| && |cs| >= 2 && GivenUpBefore(cs, index)
    ensures ChoiceMeaning(cs, ChooseRecovered(cs, index))
    decreases |cs| - index
  {
    if index < |cs| && cs[index].Corrupt? { ChooseRecoveredMeaning(cs, index + 1); }
  }

  lemma SegmentChoice(cs: seq<Candidate>)
    requires |cs| >= 2
    ensures ChoiceMeaning(cs, Choose(cs))
  {
    if cs[0].Missing? || cs[0].Corrupt? {
      ChooseRecoveredMeaning(cs, 1);
    } else if cs[0].Broken? {
      assert GivenUpBefore(cs, 0);
    }
  }

  /** Exactly when a given candidate is the one that is used. */
  lemma UsedIff(cs: seq<Candidate>, j: nat, parsed: Parsed)
    requires |cs| >= 2
    ensures Choose(cs) == Use(j, parsed) <==> j < |cs| && GivenUpBefore(cs, j) && cs[j] == Readable(parsed)
  {
    SegmentChoice(cs);
    if 0 < j < |cs| && GivenUpBefore(cs, j) && cs[j] == Readable(parsed) { SkipGivenUp(cs, 1, j); }
  }

  lemma {:induction false} SkipGivenUp(cs: seq<Candidate>, index: nat, j: nat)
    requires 1 <= index <= j < |cs| && GivenUpBefore(cs, j) && cs[j].Readable?
    ensures ChooseRecovered(cs, index) == Use(j, cs[j].parsed)
    decreases j - index
  {
    if index < j { SkipGivenUp(cs, index + 1, j); }
  }

  /** Without an unsupported header, the load fails exactly when no candidate is left to use or start. */
  lemma FailsIff(cs: seq<Candidate>)
    requires |cs| >= 2 && forall c <- cs :: !c.Broken?
    ensures Choose(cs).Fail? <==> GivenUpBefore(cs, |cs|)
  {
    SegmentChoice(cs);
    assert GivenUpBefore(cs, |cs|) ==> cs[1].Corrupt?;
  }

  // ----- One turn's lines -----

  datatype Slice = Slice(events: seq<Event>, eventCount: nat, byteSize: nat, contents: string)

  const EmptySlice := Slice([], 0, 0, "")

  /** Text of the selected lines, each closed by a line feed: the input of the slice's SHA-256. */
  function Closed(lines: seq<string>): string {
    if lines == [] then "" else Closed(lines[..|lines| - 1]) + lines[|lines| - 1] + "\n"
  }

  /** `read_slice`: line numbers start at 1; the empty range is `start == end + 1`, or 0..0. */
  function ReadSlice(wire: Wire, contents: string, start: nat, end: nat): Result<Slice, Fault> {
    var lines := Lines(contents);
    if !Complete(contents) then Err(PartialLine)
    else if start == 0 then (if end == 0 then Ok(EmptySlice) else Err(InvalidPath))
    else if start > end then
      (if start == end + 1 && start <= |lines| + 1 then Ok(EmptySlice) else Err(InvalidPath))
    else if end > |lines| then Err(InvalidPath)
    else
      var selected := lines[start - 1..end];
      match EventsOf(Decode(wire, selected))
      case None => Err(Serialize)
      case Some(events) => Ok(Slice(events, |events|, |Closed(selected)|, Closed(selected)))
  }

  /** The ranges `read_slice` knows: 0..0, the empty ones behind a line, and those within the text. */
  predicate KnownRange(lines: nat, start: nat, end: nat) {
    || (start == 0 && end == 0)
    || (1 <= start == end + 1 <= lines + 1)
    || (1 <= start <= end <= lines)
  }

  /**
   When `read_slice` answers, and with what: a torn file and an unknown range are errors of their own, a broken
   line among the selected ones makes the slice unreadable, and otherwise it holds the events of the selected
   lines, in order, how many they are, and the lines' text.
   */
  lemma SliceMeaning(wire: Wire, contents: string, start: nat, end: nat)
    ensures var lines, r := Lines(contents), ReadSlice(wire, contents, start, end);
      && (r == Err(PartialLine) <==> contents != "" && contents[|contents| - 1] != '\n')
      && (r == Err(InvalidPath) <==> r != Err(PartialLine) && !KnownRange(|lines|, start, end))
      && (r.Ok? && (start == 0 || end < start) ==> r.value == Slice([], 0, 0, ""))
      && (1 <= start <= end <= |lines| && r != Err(PartialLine) ==>
           var values := Decode(wire, lines[start - 1..end]);
           && (r == Err(Serialize) <==> exists v <- values :: v.Garbage?)
           && (r.Ok? ==>
                && r.value.events == RecordedEvents(values) && r.value.eventCount == |RecordedEvents(values)|
                && r.value.contents == Closed(lines[start - 1..end]) && r.value.byteSize == |r.value.contents|))
  {
    hide EventsOf, Lines;
    if 1 <= start <= end <= |Lines(contents)| { EventsAreRecorded(Decode(wire, Lines(contents)[start - 1..end])); }
  }

  /** The text of lines one after the other, each closed by a line feed. */
  lemma {:induction false} ClosedAppend(a: seq<string>, b: seq<string>)
    ensures Closed(a + b) == Closed(a) + Closed(b)
  {
    hide Closed;
    if b == [] {
      NothingClosed();
      assert a + b == a && Closed(a) + "" == Closed(a);
    } else {
      assert (a + b)[..|a + b| - 1] == a + b[..|b| - 1];
      ClosedAppend(a, b[..|b| - 1]);
      var last := b[|b| - 1] + "\n";
      assert Closed(a) + (Closed(b[..|b| - 1]) + last) == (Closed(a) + Closed(b[..|b| - 1])) + last;
      ClosedLast(b);
      ClosedLast(a + b);
    }
  }

  lemma NothingClosed()
    ensures Closed([]) == ""
  {
  }

  lemma ClosedLast(lines: seq<string>)
    requires lines != []
    ensures Closed(lines) == Closed(lines[..|lines| - 1]) + (lines[|lines| - 1] + "\n")
  {
    Regroup(Closed(lines[..|lines| - 1]), lines[|lines| - 1], "\n");
  }

  lemma Regroup(a: string, b: string, c: string)
    ensures a + b + c == a + (b + c)
  {
  }

  lemma ClosedOne(line: string)
    ensures Closed([line]) == line + "\n"
  {
    ClosedLast([line]);
    assert [line][..0] == [] && "" + (line + "\n") == line + "\n";
  }

  method ReadSliceLines(wire: Wire, contents: string, start: nat, end: nat) returns (r: Result<Slice, Fault>)
    ensures r == ReadSlice(wire, contents, start, end)
  {
    if !Complete(contents) { return Err(PartialLine); }
    var lines := Lines(contents);
    if start == 0 {
      if end == 0 { return Ok(EmptySlice); }
      return Err(InvalidPath);
    }
    if start > end {
      if start == end + 1 && start <= |lines| + 1 { return Ok(EmptySlice); }
      return Err(InvalidPath);
    }
    if end > |lines| || start > |lines| + 1 { return Err(InvalidPath); }
    var selected := lines[start - 1..end];
    var bytes := "";
    var events := [];
    for i := 0 to |selected|
      invariant bytes == Closed(selected[..i])
      invariant EventsOf(Decode(wire, selected[..i])) == Some(events)
    {
      assert selected[..i + 1][..i] == selected[..i];
      assert Decode(wire, selected[..i + 1])[..i] == Decode(wire, selected[..i]);
      bytes := bytes + selected[i] + "\n";
      match wire.parse(selected[i]) {
        case Garbage =>
          GarbageAnywhere(Decode(wire, selected), i);
          return Err(Serialize);
        case Record(event) => events := events + [event];
        case _ =>
      }
    }
    assert selected[..|selected|] == selected;
    r := Ok(Slice(events, |events|, |bytes|, bytes));
  }

  lemma {:induction false} ClosedEncode(wire: Wire, values: seq<LineValue>, lines: seq<string>)
    requires |lines| == |values| && forall k :: 0 <= k < |values| ==> lines[k] == wire.render(values[k])
    ensures Closed(lines) == Encode(wire, values)
  {
    if values == [] {
    } else {
      var n := |values| - 1;
      ClosedEncode(wire, values[..n], lines[..n]);
      EncodeAppend(wire, values[..n], values[n..]);
      assert values[..n] + values[n..] == values;
      assert Encode(wire, values[n..]) == wire.render(values[n]) + "\n" + Encode(wire, []) by {
        assert values[n..][1..] == [];
      }
    }
  }

  /** The lines written between a complete prefix and a complete suffix are read back exactly. */
  lemma {:induction false} SliceOfWritten(wire: Wire, before: string, values: seq<LineValue>, after: string)
    requires wire.Lossless() && Complete(before) && Complete(after)
    requires values != [] && forall k :: 0 <= k < |values| ==> IsWritten(values[k])
    ensures EventsOf(values).Some?
    ensures var start, text := |Lines(before)| + 1, Encode(wire, values);
      ReadSlice(wire, before + text + after, start, start + |values| - 1)
        == Ok(Slice(EventsOf(values).value, |EventsOf(values).value|, |text|, text))
  {
    hide EventsOf, Lines, Encode, Complete, Decode, Closed;
    var text := Encode(wire, values);
    var skip := |Lines(before)|;
    WrittenHasEvents(values);
    LinesAround(wire, before, values, after);
    var contents := before + text + after;
    var selected := Lines(contents)[skip..skip + |values|];
    assert selected == Lines(text);
    assert EventsOf(Decode(wire, selected)) == EventsOf(values) by { DecodeEncode(wire, values); }
    assert Closed(selected) == text by { LinesEncode(wire, values); ClosedEncode(wire, values, selected); }
  }

  lemma {:induction false} LinesAround(wire: Wire, before: string, values: seq<LineValue>, after: string)
    requires wire.Lossless() && Complete(before) && Complete(after)
    requires forall k :: 0 <= k < |values| ==> IsWritten(values[k])
    ensures var text := Encode(wire, values);
      && Complete(before + text + after)
      && Lines(before + text + after) == Lines(before) + Lines(text) + Lines(after)
      && |Lines(text)| == |values|
  {
    var text := Encode(wire, values);
    EncodeAppend(wire, values, []);
    CompleteAppend(before, text);
    CompleteAppend(before + text, after);
    LinesAppend(before, text);
    LinesAppend(before + text, after);
    LinesEncode(wire, values);
  }

  lemma {:induction false} LinesEncode(wire: Wire, values: seq<LineValue>)
    requires wire.Lossless()
    requires forall k :: 0 <= k < |values| ==> IsWritten(values[k])
    ensures |Lines(Encode(wire, values))| == |values|
    ensures forall k :: 0 <= k < |values| ==> Lines(Encode(wire, values))[k] == wire.render(values[k])
  {
    if values == [] {
    } else {
      var line := wire.render(values[0]);
      assert IsWritten(values[0]);
      LinesOfOne(line);
      LinesAppend(line + "\n", Encode(wire, values[1..]));
      LinesEncode(wire, values[1..]);
      assert Lines(Encode(wire, values)) == [line] + Lines(Encode(wire, values[1..]));
    }
  }

  lemma {:induction false} WrittenHasEvents(values: seq<LineValue>)
    requires forall k :: 0 <= k < |values| ==> IsWritten(values[k])
    ensures EventsOf(values).Some?
  {
    if values == [] {
    } else {
      WrittenHasEvents(values[..|values| - 1]);
      assert IsWritten(values[|values| - 1]);
    }
  }
}
