/**
 Writing one turn (`store/rollout/writer.rs`). Every operation is given first as a function on the
 writer's value; the class `RolloutWriter` performs it on its fields and is proved to compute that value.
 */
module Writers {
  import opened Basics
  import opened Conversation
  import opened ThreadStates
  import opened Reader

  /** The writer's fields. `written` stands for the SHA-256 hasher: the lines fed to it so far. */
  datatype Writer = Writer(
    turnId: string, format: Format, path: Path,
    seqNo: nat, lineCount: nat, startLine: nat, endLine: nat,
    byteSize: nat, expectedLen: nat, eventCount: nat,
    core: Core, status: Status, finished: bool, written: seq<LineValue>)

  datatype TurnContext = TurnContext(turnId: string, details: string)

  datatype Summary = Summary(
    path: Path, status: Status, startLine: nat, endLine: nat, eventCount: nat, byteSize: nat, contents: string)

  /** `summary_with_status`: the hash is represented by the text that was hashed. */
  function SummaryOf(wire: Wire, w: Writer): Summary {
    Summary(w.path, w.status, w.startLine, w.endLine, w.eventCount, w.byteSize, Encode(wire, w.written))
  }

  function WriteLine(wire: Wire, w: Writer, v: LineValue): Writer {
    w.(written := w.written + [v],
       byteSize := w.byteSize + |wire.render(v)| + 1,
       lineCount := w.lineCount + 1,
       endLine := w.lineCount + 1)
  }

  /** Bookkeeping of a content event in `write_event`; errors and usage only enter the digest chain. */
  function Recorded(c: Core, seqNo: nat, kind: Kind, payload: Payload): Core {
    var x := IdentityOf(kind, payload);
    if IsContentKind(kind) then
      c.(content := c.content + [x],
         eventRefs := c.eventRefs[x := Refs(c.eventRefs, x) + [seqNo]],
         contentEventCount := c.contentEventCount + 1)
    else c.(content := c.content + [x])
  }

  /** `write_event`, for a writer that is not finished. */
  function WriteEvent(wire: Wire, w: Writer, body: Body): Writer {
    var w' := w.(
      seqNo := w.seqNo + 1,
      eventCount := w.eventCount + 1,
      core := if body.Content? then Recorded(w.core, w.seqNo + 1, body.kind, body.payload) else w.core);
    WriteLine(wire, w', Record(Event(w.seqNo + 1, body)))
  }

  /** `append_control` */
  function AppendControl(wire: Wire, w: Writer, body: Body): Writer
    requires !body.Content?
  {
    var w' := if body.Window? then w.(core := w.core.(window := body.window, eventRefs := map[])) else w;
    WriteEvent(wire, w', body)
  }

  function Keyed(w: Writer, key: Option<ItemKey>, seqNo: nat): Writer {
    w.(core := w.core.(itemRefs := SetItem(w.core.itemRefs, key, seqNo)))
  }

  /** Writing a content event and remembering its stable key. */
  function WriteContent(wire: Wire, w: Writer, draft: ContentDraft): Writer {
    var w' := WriteEvent(wire, w, Content(KindOf(draft.body), PayloadOf(wire, draft.body)));
    Keyed(w', StableKey(draft), w'.seqNo)
  }

  /** `append_content`: a finished writer refuses and is left alone. */
  function AppendContent(wire: Wire, w: Writer, draft: ContentDraft): (Writer, Option<nat>) {
    if w.finished then (w, None)
    else (WriteContent(wire, w, draft), Some(w.seqNo + 1))
  }

  /** The loop variables of `append_request_events`. */
  datatype Pass = Pass(w: Writer, refs: seq<nat>, seen: map<Identity, nat>)

  function Seen(seen: map<Identity, nat>, x: Identity): nat {
    if x in seen then seen[x] else 0
  }

  /** The event a draft already has: by stable key first, then by occurrence in the current window. */
  function Existing(wire: Wire, c: Core, seen: map<Identity, nat>, draft: ContentDraft): Option<nat> {
    var key := StableKey(draft);
    var x := DraftIdentity(wire, draft);
    if key.Some? && key.value in c.itemRefs then Some(c.itemRefs[key.value])
    else if Seen(seen, x) < |Refs(c.eventRefs, x)| then Some(c.eventRefs[x][Seen(seen, x)])
    else None
  }

  function ProcessOne(wire: Wire, p: Pass, draft: ContentDraft): Pass {
    var x := DraftIdentity(wire, draft);
    var existing := Existing(wire, p.w.core, p.seen, draft);
    var w := match existing
      case Some(seqNo) => Keyed(p.w, StableKey(draft), seqNo)
      case None => WriteContent(wire, p.w, draft);
    var seqNo := match existing
      case Some(seqNo) => seqNo
      case None => p.w.seqNo + 1;
    Pass(w, p.refs + [seqNo], p.seen[x := Seen(p.seen, x) + 1])
  }

  function Process(wire: Wire, w: Writer, drafts: seq<ContentDraft>): Pass {
    if drafts == [] then Pass(w, [], map[])
    else ProcessOne(wire, Process(wire, w, drafts[..|drafts| - 1]), drafts[|drafts| - 1])
  }

  /** `append_request_events` */
  function AppendRequest(wire: Wire, w: Writer, drafts: seq<ContentDraft>): Writer {
    var p := Process(wire, w, drafts);
    AppendControl(wire, p.w, Context(Some(p.refs)))
  }

  predicate NeedsWindow(state: ThreadState, session: Session) {
    state.core.window.None? || WindowChanged(state, session)
  }

  /** The writer `begin` creates, before it writes its first line. */
  function Opened(state: ThreadState, turnId: string): Writer {
    Writer(turnId, if state.lineCount == 0 then V1 else state.format, state.path,
           state.seqNo, state.lineCount, state.lineCount + 1, state.lineCount,
           0, state.stamp.len, 0, state.core, Writing, false, [])
  }

  function WindowBody(wire: Wire, session: Session): Body {
    Window(Some(WindowState(RedactOption(wire, session.windowId), session.generation)))
  }

  function TurnBody(wire: Wire, turn: TurnContext): Body {
    Turn(Some(wire.redactText(turn.turnId)), wire.redactJson(turn.details))
  }

  /** Header, window and turn lines: everything in front of the request's events. */
  function Preamble(wire: Wire, state: ThreadState, session: Session, turn: TurnContext): Writer {
    var w0 := Opened(state, turn.turnId);
    var w1 := if state.lineCount == 0 then WriteLine(wire, w0, Header(state.path.key.thread)) else w0;
    var w2 := if state.lineCount == 0 || NeedsWindow(state, session)
              then AppendControl(wire, w1, WindowBody(wire, session)) else w1;
    AppendControl(wire, w2, TurnBody(wire, turn))
  }

  /** `begin`, once the thread's state has been resolved. */
  function Begin(wire: Wire, state: ThreadState, session: Session, turn: TurnContext,
      drafts: seq<ContentDraft>): Writer
  {
    AppendRequest(wire, Preamble(wire, state, session, turn), drafts)
  }

  /** `finish_with`: the second call changes nothing. */
  function Finish(wire: Wire, w: Writer, status: Status, details: string): Writer {
    if w.finished then w
    else AppendControl(wire, w, TurnEnd(status, wire.redactJson(details))).(status := status, finished := true)
  }

  /** The state stored in the cache and the index once the turn is finished. */
  function StateOf(w: Writer, stamp: Stamp): ThreadState {
    ThreadState(w.path, w.format, stamp, w.lineCount, w.seqNo, w.core)
  }

  // ----- The writer stays in step with the file -----

  /** What the file holds, as values: `base` was there before the turn. */
  ghost predicate InSync(w: Writer, base: seq<LineValue>) {
    var values := base + w.written;
    && values != []
    && (forall v <- w.written :: IsWritten(v))
    && Parse(values).Ok?
    && var p := Parse(values).value;
       && p.format == w.format
       && p.lineCount == w.lineCount == w.endLine
       && p.lastSeq == w.seqNo
       && Tracks(w.core, p.events)
  }

  /** The live tool references are those of the file. */
  ghost predicate ToolsInSync(w: Writer, base: seq<LineValue>) {
    Parse(base + w.written).Ok? && ToolsAgree(w.core, Parse(base + w.written).value.events)
  }

  predicate KeepsToolIds(wire: Wire, drafts: seq<ContentDraft>) {
    forall d <- drafts :: KeepsToolId(wire, d.body)
  }

  /** The size, line and event counters describe exactly the lines written by this turn. */
  ghost predicate Counted(wire: Wire, w: Writer, base: seq<LineValue>) {
    && w.byteSize == |Encode(wire, w.written)|
    && w.startLine == |base| + 1
    && w.lineCount == w.endLine == |base| + |w.written|
    && (forall v <- w.written :: IsWritten(v))
    && EventsOf(w.written).Some?
    && w.eventCount == |EventsOf(w.written).value|
  }

  lemma CountedLine(wire: Wire, w: Writer, base: seq<LineValue>, v: LineValue)
    requires Counted(wire, w, base) && v.Header?
    ensures Counted(wire, WriteLine(wire, w, v), base)
  {
    EncodeAppend(wire, w.written, [v]);
    assert (w.written + [v])[..|w.written|] == w.written;
    assert Encode(wire, [v]) == wire.render(v) + "\n" + Encode(wire, [v][1..]);
  }

  lemma CountedEvent(wire: Wire, w: Writer, base: seq<LineValue>, body: Body)
    requires Counted(wire, w, base) && Emitted(body)
    ensures Counted(wire, WriteEvent(wire, w, body), base)
  {
    var v := Record(Event(w.seqNo + 1, body));
    EncodeAppend(wire, w.written, [v]);
    assert (w.written + [v])[..|w.written|] == w.written;
    assert Encode(wire, [v]) == wire.render(v) + "\n" + Encode(wire, [v][1..]);
  }

  /** One more event line: the file's parse grows by that event. */
  lemma ParseOneMore(values: seq<LineValue>, e: Event)
    requires values != [] && Parse(values).Ok?
    ensures var p := Parse(values).value;
      Parse(values + [Record(e)]) == Ok(Parsed(p.format, p.events + [e], p.lineCount + 1, Max(p.lastSeq, e.seqNo)))
  {
    hide Parse, ReadHeader;
    var b := [Record(e)];
    assert b[..0] == [] && [e][..0] == [];
    assert EventsOf(b) == Some([] + [e]) && [] + [e] == [e];
    assert MaxSeq([e]) == e.seqNo;
    ParseAppend(values, b);
  }

  /** Writing an event keeps step with the file when the bookkeeping matches what a reader will do. */
  lemma SyncEvent(wire: Wire, w: Writer, base: seq<LineValue>, w': Writer, body: Body)
    requires InSync(w, base) && Emitted(body)
    requires w' == WriteEvent(wire, w, body).(core := w'.core)
    requires Tracks(w'.core, Parse(base + w.written).value.events + [Event(w.seqNo + 1, body)])
    ensures InSync(w', base)
    ensures ToolsInSync(w', base) <==>
      ToolsAgree(w'.core, Parse(base + w.written).value.events + [Event(w.seqNo + 1, body)])
  {
    hide Tracks, ToolsAgree;
    ParseOneMore(base + w.written, Event(w.seqNo + 1, body));
    assert base + w'.written == base + w.written + [Record(Event(w.seqNo + 1, body))];
  }

  lemma SyncControl(wire: Wire, w: Writer, base: seq<LineValue>, body: Body)
    requires InSync(w, base) && !body.Content? && Emitted(body)
    ensures InSync(AppendControl(wire, w, body), base)
    ensures ToolsInSync(w, base) ==> ToolsInSync(AppendControl(wire, w, body), base)
  {
    hide Parse, Holds;
    var events, e := Parse(base + w.written).value.events, Event(w.seqNo + 1, body);
    var w' := AppendControl(wire, w, body);
    RebuildSnoc(events, e);
    forall key <- w.core.itemRefs ensures Holds(events + [e], w.core.itemRefs[key], key.kind) {
      HoldsLater(events, [e], w.core.itemRefs[key], key.kind);
    }
    SyncEvent(wire, w, base, w', body);
  }

  /** A key set on both sides, or a message key set on the live side only, keeps the tool references equal. */
  lemma SetItemAgrees(live: map<ItemKey, nat>, cold: map<ItemKey, nat>, key: Option<ItemKey>,
      stored: Option<ItemKey>, seqNo: nat)
    requires ToolRefs(live) == ToolRefs(cold)
    requires key == stored || (stored.None? && key.Some? && !IsToolKind(key.value.kind))
    ensures ToolRefs(SetItem(live, key, seqNo)) == ToolRefs(SetItem(cold, stored, seqNo))
  {
    var a, b := ToolRefs(SetItem(live, key, seqNo)), ToolRefs(SetItem(cold, stored, seqNo));
    forall k | k in a || k in b ensures k in a && k in b && a[k] == b[k] {
      assert k in ToolRefs(live) <==> k in ToolRefs(cold);
      if k in ToolRefs(live) { assert ToolRefs(live)[k] == ToolRefs(cold)[k]; }
    }
  }

  lemma SyncContent(wire: Wire, w: Writer, base: seq<LineValue>, draft: ContentDraft)
    requires InSync(w, base)
    ensures InSync(WriteContent(wire, w, draft), base)
    ensures ToolsInSync(w, base) && KeepsToolId(wire, draft.body) ==> ToolsInSync(WriteContent(wire, w, draft), base)
  {
    hide Parse, Holds;
    var body := Content(KindOf(draft.body), PayloadOf(wire, draft.body));
    var events, e := Parse(base + w.written).value.events, Event(w.seqNo + 1, body);
    var w' := WriteContent(wire, w, draft);
    var cold := Rebuild(events);
    RebuildSnoc(events, e);
    if ToolsInSync(w, base) && KeepsToolId(wire, draft.body) {
      SetItemAgrees(w.core.itemRefs, cold.itemRefs, StableKey(draft), StoredKey(body.kind, body.payload), w.seqNo + 1);
    }
    forall key <- w'.core.itemRefs ensures Holds(events + [e], w'.core.itemRefs[key], key.kind) {
      if Some(key) == StableKey(draft) { HoldsLast(events, e); }
      else { HoldsLater(events, [e], w.core.itemRefs[key], key.kind); }
    }
    SyncEvent(wire, w, base, w', body);
  }

  /** A draft that is already in the file: remembering its key again changes no tool reference. */
  lemma SyncExisting(wire: Wire, p: Pass, base: seq<LineValue>, draft: ContentDraft)
    requires InSync(p.w, base)
    requires Existing(wire, p.w.core, p.seen, draft).Some?
    ensures InSync(ProcessOne(wire, p, draft).w, base)
    ensures Holds(Parse(base + p.w.written).value.events, Existing(wire, p.w.core, p.seen, draft).value,
      KindOf(draft.body))
    ensures ToolsInSync(p.w, base) && KeepsToolId(wire, draft.body) ==> ToolsInSync(ProcessOne(wire, p, draft).w, base)
  {
    hide Parse, Rebuild, ToolRefs;
    var c, w' := p.w.core, ProcessOne(wire, p, draft).w;
    assert base + w'.written == base + p.w.written;
    var events := Parse(base + p.w.written).value.events;
    var key, x := StableKey(draft), DraftIdentity(wire, draft);
    if !(key.Some? && key.value in c.itemRefs) { ListedHolds(events, x, Seen(p.seen, x)); }
    if ToolsInSync(p.w, base) && KeepsToolId(wire, draft.body) { KnownToolStays(wire, p, draft, events); }
  }

  /** A tool draft that is found was known by its key, when redaction keeps its id. */
  lemma KnownToolStays(wire: Wire, p: Pass, draft: ContentDraft, events: seq<Event>)
    requires Agrees(p.w.core, Rebuild(events)) && ToolsAgree(p.w.core, events) && KeepsToolId(wire, draft.body)
    requires Existing(wire, p.w.core, p.seen, draft).Some?
    ensures ToolRefs(ProcessOne(wire, p, draft).w.core.itemRefs) == ToolRefs(p.w.core.itemRefs)
  {
    hide Rebuild;
    RebuildListedToolsHaveKeys(events);
    var c, cold := p.w.core, Rebuild(events);
    var key, x := StableKey(draft), DraftIdentity(wire, draft);
    if key.Some? && IsToolKind(key.value.kind) {
      assert ItemKey(x.kind, x.toolCallId.value) == key.value;
      assert x in c.eventRefs ==> key.value in cold.itemRefs;
      assert key.value in ToolRefs(cold.itemRefs) ==> key.value in ToolRefs(c.itemRefs);
    }
  }

  lemma HoldsAt(events: seq<Event>, i: nat)
    requires i < |events| && events[i].body.Content?
    ensures Holds(events, events[i].seqNo, events[i].body.kind)
  {
  }

  /** The k-th listed number of an identity names a file event of that kind. */
  lemma ListedHolds(events: seq<Event>, x: Identity, k: nat)
    requires k < |Refs(Rebuild(events).eventRefs, x)|
    ensures Holds(events, Rebuild(events).eventRefs[x][k], x.kind)
  {
    hide Rebuild, SeqsOf, WindowStart, Holds;
    RebuildListsContentOnly(events);
    RebuildRefsAreWindowSeqs(events, x);
    var start := WindowStart(events);
    var i := SeqsOfNames(events[start..], x, k);
    HoldsAt(events, start + i);
  }

  lemma {:induction false} SyncProcess(wire: Wire, w: Writer, base: seq<LineValue>, drafts: seq<ContentDraft>)
    requires InSync(w, base)
    ensures InSync(Process(wire, w, drafts).w, base)
    ensures ToolsInSync(w, base) && KeepsToolIds(wire, drafts) ==> ToolsInSync(Process(wire, w, drafts).w, base)
    ensures Process(wire, w, drafts).w.path == w.path
  {
    hide InSync, ToolsInSync, KeepsToolId;
    if drafts == [] {
    } else {
      var init, last := drafts[..|drafts| - 1], drafts[|drafts| - 1];
      SyncProcess(wire, w, base, init);
      var p := Process(wire, w, init);
      if Existing(wire, p.w.core, p.seen, last).Some? {
        SyncExisting(wire, p, base, last);
      } else {
        SyncContent(wire, p.w, base, last);
      }
    }
  }

  /** The state `begin` resumes from describes the values of the file it continues. */
  ghost predicate Fits(state: ThreadState, base: seq<LineValue>) {
    && Parse(base).Ok?
    && var p := Parse(base).value;
       && state.lineCount == p.lineCount
       && state.seqNo == p.lastSeq
       && (base != [] ==> state.format == p.format)
       && Tracks(state.core, p.events)
  }

  ghost predicate ToolsFit(state: ThreadState, base: seq<LineValue>) {
    Parse(base).Ok? && ToolsAgree(state.core, Parse(base).value.events)
  }

  /** Window, turn and content lines in front of `context`, seen from the file. */
  lemma SyncPreamble(wire: Wire, state: ThreadState, session: Session, turn: TurnContext, base: seq<LineValue>)
    requires Fits(state, base) && state.path.key.thread != ""
    ensures InSync(Preamble(wire, state, session, turn), base)
    ensures ToolsFit(state, base) ==> ToolsInSync(Preamble(wire, state, session, turn), base)
    ensures Counted(wire, Preamble(wire, state, session, turn), base)
  {
    hide AppendControl, WriteEvent, NeedsWindow, Tracks, ToolsAgree;
    var w0 := Opened(state, turn.turnId);
    assert Counted(wire, w0, base);
    var w1 := w0;
    if state.lineCount == 0 {
      var header := Header(state.path.key.thread);
      w1 := WriteLine(wire, w0, header);
      CountedLine(wire, w0, base, header);
      assert base + w1.written == [header];
      assert [header][1..] == [];
    } else {
      assert base + w0.written == base;
    }
    assert InSync(w1, base);
    var w2 := w1;
    var window := WindowBody(wire, session);
    if state.lineCount == 0 || NeedsWindow(state, session) {
      w2 := AppendControl(wire, w1, window);
      SyncControl(wire, w1, base, window);
      CountedControl(wire, w1, base, window);
    }
    SyncControl(wire, w2, base, TurnBody(wire, turn));
    CountedControl(wire, w2, base, TurnBody(wire, turn));
  }

  lemma CountedControl(wire: Wire, w: Writer, base: seq<LineValue>, body: Body)
    requires Counted(wire, w, base) && !body.Content? && Emitted(body)
    ensures Counted(wire, AppendControl(wire, w, body), base)
  {
    var w' := if body.Window? then w.(core := w.core.(window := body.window, eventRefs := map[])) else w;
    CountedEvent(wire, w', base, body);
  }

  lemma CountedContent(wire: Wire, w: Writer, base: seq<LineValue>, draft: ContentDraft)
    requires Counted(wire, w, base)
    ensures Counted(wire, WriteContent(wire, w, draft), base)
  {
    hide WriteEvent;
    CountedEvent(wire, w, base, Content(KindOf(draft.body), PayloadOf(wire, draft.body)));
  }

  lemma {:induction false} CountedProcess(wire: Wire, w: Writer, base: seq<LineValue>, drafts: seq<ContentDraft>)
    requires Counted(wire, w, base)
    ensures Counted(wire, Process(wire, w, drafts).w, base)
  {
    hide WriteContent;
    if drafts == [] {
    } else {
      var init, last := drafts[..|drafts| - 1], drafts[|drafts| - 1];
      CountedProcess(wire, w, base, init);
      CountedContent(wire, Process(wire, w, init).w, base, last);
    }
  }

  /** A turn that has begun is in step with the file, and its counters are exact. */
  lemma BeginInSync(wire: Wire, state: ThreadState, session: Session, turn: TurnContext,
      drafts: seq<ContentDraft>, base: seq<LineValue>)
    requires Fits(state, base) && state.path.key.thread != ""
    ensures InSync(Begin(wire, state, session, turn, drafts), base)
    ensures ToolsFit(state, base) && KeepsToolIds(wire, drafts) ==>
      ToolsInSync(Begin(wire, state, session, turn, drafts), base)
    ensures Counted(wire, Begin(wire, state, session, turn, drafts), base)
  {
    hide InSync, ToolsInSync, ToolsFit, Counted, Preamble, AppendControl, KeepsToolIds;
    var w := Preamble(wire, state, session, turn);
    SyncPreamble(wire, state, session, turn, base);
    SyncProcess(wire, w, base, drafts);
    CountedProcess(wire, w, base, drafts);
    var p := Process(wire, w, drafts);
    SyncControl(wire, p.w, base, Context(Some(p.refs)));
    CountedControl(wire, p.w, base, Context(Some(p.refs)));
  }

  lemma AppendInSync(wire: Wire, w: Writer, draft: ContentDraft, base: seq<LineValue>)
    requires InSync(w, base) && Counted(wire, w, base)
    ensures InSync(AppendContent(wire, w, draft).0, base)
    ensures ToolsInSync(w, base) && KeepsToolId(wire, draft.body) ==> ToolsInSync(AppendContent(wire, w, draft).0, base)
    ensures Counted(wire, AppendContent(wire, w, draft).0, base)
  {
    hide InSync, ToolsInSync, Counted, WriteContent;
    SyncContent(wire, w, base, draft);
    CountedContent(wire, w, base, draft);
  }

  lemma FinishInSync(wire: Wire, w: Writer, status: Status, details: string, base: seq<LineValue>)
    requires InSync(w, base) && Counted(wire, w, base)
    ensures InSync(Finish(wire, w, status, details), base)
    ensures ToolsInSync(w, base) ==> ToolsInSync(Finish(wire, w, status, details), base)
    ensures Counted(wire, Finish(wire, w, status, details), base)
  {
    hide AppendControl, Tracks, Parse, ToolsAgree;
    var end := TurnEnd(status, wire.redactJson(details));
    SyncControl(wire, w, base, end);
    CountedControl(wire, w, base, end);
  }
}
