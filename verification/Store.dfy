/**
 The store and the writer as the objects they are (`RolloutStore` and `RolloutWriter`): fields updated in
 place, loops over drafts and segments. Each method is proved to compute the functions of `Writers` and
 `Servers`, about which the laws are proved.
 */
module Stores {
  import opened Basics
  import opened Text
  import opened Conversation
  import opened ThreadStates
  import opened Reader
  import opened Writers
  import opened ThreadIndexFile
  import opened LruCache
  import opened Servers

  class RolloutStore {
    const wire: Wire
    const cache: ThreadIndex
    var disk: Disk
    var indexes: map<Key, PersistedIndex>
    var clock: nat

    constructor (wire: Wire, limit: nat)
      ensures Valid() && fresh(cache) && View() == EmptyServer && this.wire == wire
    {
      this.wire := wire;
      cache := new ThreadIndex(limit);
      disk, indexes, clock := map[], map[], 0;
    }

    ghost predicate Valid()
      reads this, cache
    {
      cache.Valid()
    }

    /** The store as the state machine sees it; open turns are objects of their own. */
    ghost function View(): Server
      reads this, cache
      requires Valid()
    {
      Server(disk, indexes, cache.Contents(), map[], clock)
    }

    /** One write to a file: its text grows and it gets a later time. */
    method AppendText(path: Path, text: string)
      modifies this`disk, this`clock
      ensures clock == old(clock) + 1
      ensures disk == old(disk)[path := File(TextAt(old(disk), path) + text, clock)]
    {
      clock := clock + 1;
      disk := disk[path := File((if path in disk then disk[path].text else "") + text, clock)];
    }

    /** `read_thread_events`: a torn tail is cut off once the complete lines have parsed. */
    method ReadThreadEvents(path: Path) returns (r: Result<Parsed, Fault>)
      requires path in disk
      modifies this`disk
      ensures r == Parse(Values(wire, old(disk)[path].text))
      ensures disk == if r.Ok? then RepairFile(old(disk), path, clock + 1) else old(disk)
    {
      var contents := disk[path].text;
      if Complete(contents) {
        RepairIdempotent(contents);
        r := ParseContents(wire, contents);
      } else {
        var valid := contents[..ValidLen(contents)];
        r := ParseContents(wire, valid);
        if r.Ok? { disk := disk[path := File(valid, clock + 1)]; }
      }
    }

    method SaveThreadIndex(key: Key, state: ThreadState)
      requires Valid()
      modifies this`indexes
      ensures View() == SaveIndex(old(View()), key, state)
    {
      var index := WriteIndex(disk, key, state);
      if index.Some? { indexes := indexes[key := index.value]; }
    }

    /** `load_thread_source` together with the caching that follows it in `resolve_thread_source`. */
    method LoadThreadSource(key: Key) returns (outcome: Result<(ThreadState, Source), Fault>)
      requires Valid() && cache.clock + 1 < ClockWrap
      modifies this`disk, this`indexes, this`clock, cache
      ensures Valid() && cache.clock <= old(cache.clock) + 1
      ensures Resolution(View(), outcome) == LoadThread(wire, cache.maxEntries, old(View()), key)
    {
      hide Parse, Values, Choose, RepairFile;
      var choice := ChooseSegment(wire, disk, key);
      match choice {
        case Use(j, parsed) =>
          var path := Path(key, j);
          ChosenExists(wire, disk, key);
          ChosenIsParsed(wire, disk, key);
          var r := ReadThreadEvents(path);
          clock := clock + 1;
          var state :=
            FromEvents(path, StampOf(disk[path]), r.value.format, r.value.events, r.value.lineCount, r.value.lastSeq);
          cache.Put(key, state);
          SaveThreadIndex(key, state);
          return Ok((state, FromFile));
        case Start(j) =>
          var state := EmptyState(Path(key, j));
          cache.Put(key, state);
          return Ok((state, FromFile));
        case Fail(fault) => return Err(fault);
      }
    }

    /** `resolve_thread_source`: cache, then index, then the file itself. */
    method ResolveThreadSource(key: Key) returns (outcome: Result<(ThreadState, Source), Fault>)
      requires Valid() && cache.clock + 2 < ClockWrap
      modifies this`disk, this`indexes, this`clock, cache
      ensures Valid() && cache.clock <= old(cache.clock) + 2
      ensures Resolution(View(), outcome) == Resolve(wire, cache.maxEntries, old(View()), key)
    {
      hide LoadThread, LoadIndex, Touch, Insert;
      var hit := cache.Get(key);
      if hit.Some? && Matches(disk, hit.value) {
        return Ok((hit.value, FromCache));
      }
      if key in indexes {
        var indexed := LoadIndex(disk, key, indexes[key]);
        if indexed.Some? {
          cache.Put(key, indexed.value);
          return Ok((indexed.value, FromIndex));
        }
      }
      outcome := LoadThreadSource(key);
    }
  }

  lemma ChosenIsParsed(wire: Wire, disk: Disk, key: Key)
    requires Choose(Candidates(wire, disk, key)).Use?
    ensures var c := Choose(Candidates(wire, disk, key));
      Path(key, c.segment) in disk && Parse(Values(wire, disk[Path(key, c.segment)].text)) == Ok(c.parsed)
  {
    hide Parse, Values, Choose;
    var cs := Candidates(wire, disk, key);
    SegmentChoice(cs);
    assert cs[Choose(cs).segment] == Inspect(wire, disk, Path(key, Choose(cs).segment));
  }

  class RolloutWriter {
    const store: RolloutStore
    const turnId: string
    const format: Format
    const path: Path
    const startLine: nat
    const expectedLen: nat
    var seqNo: nat
    var lineCount: nat
    var endLine: nat
    var byteSize: nat
    var eventCount: nat
    var windowState: Option<WindowState>
    var content: seq<Identity>
    var eventRefs: map<Identity, seq<nat>>
    var itemRefs: map<ItemKey, nat>
    var contentEventCount: nat
    var status: Status
    var finished: bool
    var hasher: seq<LineValue>

    constructor Open(store: RolloutStore, state: ThreadState, turnId: string)
      ensures View() == Opened(state, turnId) && this.store == store
    {
      this.store := store;
      this.turnId := turnId;
      format := if state.lineCount == 0 then V1 else state.format;
      path := state.path;
      startLine := state.lineCount + 1;
      expectedLen := state.stamp.len;
      seqNo, lineCount, endLine := state.seqNo, state.lineCount, state.lineCount;
      byteSize, eventCount := 0, 0;
      windowState, content := state.core.window, state.core.content;
      eventRefs, itemRefs := state.core.eventRefs, state.core.itemRefs;
      contentEventCount := state.core.contentEventCount;
      status, finished, hasher := Writing, false, [];
    }

    ghost function View(): Writer
      reads this
    {
      Writer(turnId, format, path, seqNo, lineCount, startLine, endLine, byteSize, expectedLen, eventCount,
             Core(windowState, content, eventRefs, itemRefs, contentEventCount), status, finished, hasher)
    }

    /** The turn's file. */
    ghost function Text(): string
      reads store
    {
      TextAt(store.disk, path)
    }

    /** The files of other turns are left alone. */
    twostate predicate OthersUnchanged()
      reads store
    {
      && old(store.clock) <= store.clock
      && (forall p: Path :: p != path ==> (p in store.disk <==> p in old(store.disk)))
      && (forall p <- store.disk :: p != path ==> store.disk[p] == old(store.disk)[p])
    }

    method WriteLineValue(v: LineValue)
      modifies this`hasher, this`byteSize, this`lineCount, this`endLine, store`disk, store`clock
      ensures View() == WriteLine(store.wire, old(View()), v)
      ensures Text() == old(Text()) + Encode(store.wire, [v]) && path in store.disk
      ensures OthersUnchanged()
    {
      EncodeOne(store.wire, v);
      hide Encode;
      var line := store.wire.render(v) + "\n";
      store.AppendText(path, line);
      hasher := hasher + [v];
      byteSize := byteSize + |line|;
      lineCount := lineCount + 1;
      endLine := lineCount;
    }

    /** `write_event`, on a writer that is not finished. */
    method Write(body: Body) returns (seqOut: nat)
      requires !finished
      modifies this, store`disk, store`clock
      ensures View() == WriteEvent(store.wire, old(View()), body)
      ensures seqOut == seqNo
      ensures Text() == old(Text()) + Encode(store.wire, [Record(Event(old(seqNo) + 1, body))]) && path in store.disk
      ensures OthersUnchanged()
    {
      hide Encode, WriteLine, Refs;
      if body.Content? {
        content := content + [IdentityOf(body.kind, body.payload)];
      }
      seqNo := seqNo + 1;
      var v := Record(Event(seqNo, body));
      ghost var w := View();
      WriteLineValue(v);
      CountEvent(body);
      LineLeavesTheRest(store.wire, w, v, View().eventCount, View().core);
      seqOut := seqNo;
    }

    /** The bookkeeping behind an event's line. */
    method CountEvent(body: Body)
      modifies this`eventCount, this`eventRefs, this`contentEventCount
      ensures View() == old(View()).(eventCount := old(eventCount) + 1, core := Entered(old(View()).core, seqNo, body))
    {
      eventCount := eventCount + 1;
      if body.Content? && IsContentKind(body.kind) {
        var x := IdentityOf(body.kind, body.payload);
        eventRefs := eventRefs[x := (if x in eventRefs then eventRefs[x] else []) + [seqNo]];
        contentEventCount := contentEventCount + 1;
      }
    }

    method WriteControl(body: Body)
      requires !finished && !body.Content?
      modifies this, store`disk, store`clock
      ensures View() == AppendControl(store.wire, old(View()), body)
      ensures Text() == old(Text()) + NewLines(store.wire, old(View()), View()) && path in store.disk
      ensures OthersUnchanged()
    {
      ghost var w := View();
      if body.Window? {
        windowState := body.window;
        eventRefs := map[];
      }
      var _ := Write(body);
      OneNewLine(store.wire, w, View(), Record(Event(w.seqNo + 1, body)));
    }

    /** `append_content`: a finished writer refuses. */
    method AppendDraft(draft: ContentDraft) returns (r: Result<nat, Fault>)
      modifies this, store`disk, store`clock
      ensures View() == AppendContent(store.wire, old(View()), draft).0
      ensures r == match AppendContent(store.wire, old(View()), draft).1
        case Some(s) => Ok(s)
        case None => Err(InvalidPath)
      ensures Text() == old(Text()) + NewLines(store.wire, old(View()), View())
      ensures OthersUnchanged()
      ensures finished == old(finished) && (old(path in store.disk) ==> path in store.disk)
    {
      ghost var w := View();
      if finished {
        NoNewLine(store.wire, w, View());
        return Err(InvalidPath);
      }
      var body := Content(KindOf(draft.body), PayloadOf(store.wire, draft.body));
      var s := Write(body);
      var key := StableKey(draft);
      if key.Some? { itemRefs := itemRefs[key.value := s]; }
      OneNewLine(store.wire, w, View(), Record(Event(w.seqNo + 1, body)));
      r := Ok(s);
    }

    /** One draft of a request: reuse the event it already has, or write it. */
    method AppendOrReuse(draft: ContentDraft, occurrence: nat, ghost p: Pass) returns (seqOut: nat)
      requires !finished && p.w == View() && occurrence == Seen(p.seen, DraftIdentity(store.wire, draft))
      modifies this, store`disk, store`clock
      ensures !finished && ProcessOne(store.wire, p, draft).w == View()
      ensures ProcessOne(store.wire, p, draft).refs == p.refs + [seqOut]
      ensures old(hasher) <= hasher
      ensures Text() == old(Text()) + NewLines(store.wire, old(View()), View())
      ensures OthersUnchanged()
    {
      hide DraftIdentity, StableKey, Encode, PayloadOf, KindOf, NewLines;
      var x := DraftIdentity(store.wire, draft);
      var key := StableKey(draft);
      var existing: Option<nat> :=
        if key.Some? && key.value in itemRefs then Some(itemRefs[key.value])
        else if x in eventRefs && occurrence < |eventRefs[x]| then Some(eventRefs[x][occurrence])
        else None;
      assert existing == Existing(store.wire, p.w.core, p.seen, draft);
      if existing.Some? {
        if key.Some? { itemRefs := itemRefs[key.value := existing.value]; }
        seqOut := existing.value;
        NoNewLine(store.wire, p.w, View());
      } else {
        var r := AppendDraft(draft);
        seqOut := r.value;
        WriteContentFields(store.wire, p.w, draft);
      }
    }

    /** `append_request_events`: the loop over the drafts with its occurrence map. */
    method AppendRequestEvents(drafts: seq<ContentDraft>)
      requires !finished
      modifies this, store`disk, store`clock
      ensures View() == AppendRequest(store.wire, old(View()), drafts)
      ensures Text() == old(Text()) + NewLines(store.wire, old(View()), View()) && path in store.disk
      ensures OthersUnchanged()
    {
      hide AppendControl, ProcessOne, NewLines, Encode, DraftIdentity;
      ghost var w := View();
      ghost var text := Text();
      var refs: seq<nat> := [];
      var occurrences: map<Identity, nat> := map[];
      NoNewLine(store.wire, w, w);
      for i := 0 to |drafts|
        invariant Pass(View(), refs, occurrences) == Process(store.wire, w, drafts[..i])
        invariant w.written <= hasher && !finished
        invariant Text() == text + NewLines(store.wire, w, View())
        invariant OthersUnchanged()
      {
        assert drafts[..i + 1][..i] == drafts[..i];
        ghost var p := Pass(View(), refs, occurrences);
        var x := DraftIdentity(store.wire, drafts[i]);
        var occurrence := Seen(occurrences, x);
        occurrences := occurrences[x := occurrence + 1];
        var seqOut := AppendOrReuse(drafts[i], occurrence, p);
        refs := refs + [seqOut];
        SeenStep(store.wire, p, drafts[i]);
        NewLinesAppend(store.wire, w, p.w, View());
      }
      assert drafts[..|drafts|] == drafts;
      ghost var mid := View();
      WriteControl(Context(Some(refs)));
      ControlGrows(store.wire, mid, Context(Some(refs)));
      NewLinesAppend(store.wire, w, mid, View());
    }

    /** The lines `begin` writes in front of the request's events. */
    method WritePreamble(state: ThreadState, session: Session, turn: TurnContext)
      requires View() == Opened(state, turn.turnId) && state.path == path
      modifies this, store`disk, store`clock
      ensures View() == Preamble(store.wire, state, session, turn)
      ensures Text() == old(Text()) + Encode(store.wire, hasher) && path in store.disk
      ensures OthersUnchanged() && !finished
    {
      hide AppendControl;
      ghost var w0, text := View(), Text();
      if state.lineCount == 0 {
        var header := Header(state.path.key.thread);
        WriteLineValue(header);
      }
      ghost var w1 := View();
      if state.lineCount == 0 || NeedsWindow(state, session) {
        WriteControl(WindowBody(store.wire, session));
        ControlGrows(store.wire, w1, WindowBody(store.wire, session));
        NewLinesEncode(store.wire, w1, View());
      }
      ghost var w2 := View();
      WriteControl(TurnBody(store.wire, turn));
      ControlGrows(store.wire, w2, TurnBody(store.wire, turn));
      NewLinesEncode(store.wire, w2, View());
    }

    /** `finish_with`: the state is published only if the file has the accounted length. */
    method FinishWith(finalStatus: Status, details: string) returns (summary: Summary)
      requires store.Valid() && store.cache.clock + 1 < ClockWrap
      modifies this, store`disk, store`clock, store`indexes, store.cache
      ensures store.Valid()
      ensures View() == Finish(store.wire, old(View()), finalStatus, details)
      ensures summary == SummaryOf(store.wire, View())
      ensures Text() == old(Text()) + NewLines(store.wire, old(View()), View())
      ensures OthersUnchanged()
      ensures old(finished) ==> store.View() == old(store.View())
      ensures !old(finished) && |Text()| != expectedLen + byteSize ==>
        store.indexes == old(store.indexes) && store.cache.Contents() == old(store.cache.Contents())
      ensures !old(finished) && |Text()| == expectedLen + byteSize ==>
        var state := StateOf(View(), StampOf(store.disk[path]));
        var saved := SaveIndex(Server(store.disk, old(store.indexes),
            Insert(old(store.cache.Contents()), store.cache.maxEntries, path.key, state), map[], store.clock), path.key,
              state);
        store.View() == saved
    {
      hide AppendControl, SaveIndex, Insert;
      ghost var w := View();
      if finished {
        NoNewLine(store.wire, w, View());
        return Summary(path, status, startLine, endLine, eventCount, byteSize, Encode(store.wire, hasher));
      }
      var end := TurnEnd(finalStatus, store.wire.redactJson(details));
      WriteControl(end);
      ghost var mid := View();
      ControlGrows(store.wire, w, end);
      status := finalStatus;
      finished := true;
      assert NewLines(store.wire, w, View()) == NewLines(store.wire, w, mid);
      if |store.disk[path].text| == expectedLen + byteSize {
        var state := ThreadState(path, format, StampOf(store.disk[path]), lineCount, seqNo,
          Core(windowState, content, eventRefs, itemRefs, contentEventCount));
        store.cache.Put(path.key, state);
        store.SaveThreadIndex(path.key, state);
      }
      summary := Summary(path, status, startLine, endLine, eventCount, byteSize, Encode(store.wire, hasher));
    }
  }

  /** `begin`: resolve the thread, open its file and write everything up to the context line. */
  method BeginTurn(store: RolloutStore, key: Key, session: Session, turn: TurnContext, drafts: seq<ContentDraft>)
    returns (r: Result<RolloutWriter, Fault>)
    requires store.Valid() && store.cache.clock + 2 < ClockWrap
    modifies store`disk, store`indexes, store`clock, store.cache
    ensures store.Valid()
    ensures !SafeSegment(key.identity) || !SafeSegment(key.thread) ==>
      r == Err(InvalidPath) && store.View() == old(store.View())
    ensures SafeSegment(key.identity) && SafeSegment(key.thread) ==>
      var resolved := Resolve(store.wire, store.cache.maxEntries, old(store.View()), key);
      match resolved.outcome
      case Err(fault) => r == Err(fault) && store.View() == resolved.server
      case Ok((state, _)) =>
        && r.Ok? && fresh(r.value) && r.value.store == store
        && r.value.View() == Begin(store.wire, state, session, turn, drafts)
        && r.value.Text() == TextAt(resolved.server.disk, state.path) + Encode(store.wire, r.value.hasher)
        && (forall p: Path :: p != state.path ==> (p in store.disk <==> p in resolved.server.disk))
        && (forall p <- store.disk :: p != state.path ==> store.disk[p] == resolved.server.disk[p])
        && store.indexes == resolved.server.indexes && store.cache.Contents() == resolved.server.cache
  {
    hide Resolve, Preamble, AppendRequest;
    if !SafeSegment(key.identity) || !SafeSegment(key.thread) { return Err(InvalidPath); }
    var outcome := store.ResolveThreadSource(key);
    if outcome.Err? { return Err(outcome.error); }
    var state := outcome.value.0;
    ghost var text := TextAt(store.disk, state.path);
    var w := new RolloutWriter.Open(store, state, turn.turnId);
    w.WritePreamble(state, session, turn);
    ghost var mid := w.View();
    w.AppendRequestEvents(drafts);
    RequestGrows(store.wire, mid, drafts);
    NewLinesEncode(store.wire, mid, w.View());
    r := Ok(w);
  }

  /** A content event in the reference lists and the count. */
  function Entered(c: Core, seqNo: nat, body: Body): Core {
    if body.Content? && IsContentKind(body.kind) then
      var x := IdentityOf(body.kind, body.payload);
      c.(eventRefs := c.eventRefs[x := Refs(c.eventRefs, x) + [seqNo]], contentEventCount := c.contentEventCount + 1)
    else c
  }

  /** Writing a line and counting the event are independent. */
  lemma LineLeavesTheRest(wire: Wire, w: Writer, v: LineValue, eventCount: nat, core: Core)
    ensures WriteLine(wire, w, v).(eventCount := eventCount, core := core)
         == WriteLine(wire, w.(eventCount := eventCount, core := core), v)
  {
  }

  lemma SeenStep(wire: Wire, p: Pass, draft: ContentDraft)
    ensures var x := DraftIdentity(wire, draft);
      ProcessOne(wire, p, draft).seen == p.seen[x := Seen(p.seen, x) + 1]
  {
  }

  // ----- Text bookkeeping -----

  lemma EncodeOne(wire: Wire, v: LineValue)
    ensures Encode(wire, [v]) == wire.render(v) + "\n"
  {
    assert [v][1..] == [];
    assert Encode(wire, [v]) == wire.render(v) + "\n" + "";
  }

  lemma OneNewLine(wire: Wire, w: Writer, w': Writer, v: LineValue)
    requires w'.written == w.written + [v]
    ensures NewLines(wire, w, w') == Encode(wire, [v])
  {
    assert w'.written[|w.written|..] == [v];
  }

  lemma NoNewLine(wire: Wire, w: Writer, w': Writer)
    requires w'.written == w.written
    ensures NewLines(wire, w, w') == ""
  {
    assert w'.written[|w.written|..] == [];
  }

  lemma NewLinesAppend(wire: Wire, a: Writer, b: Writer, c: Writer)
    requires a.written <= b.written <= c.written
    ensures NewLines(wire, a, b) + NewLines(wire, b, c) == NewLines(wire, a, c)
  {
    EncodeAppend(wire, b.written[|a.written|..], c.written[|b.written|..]);
    assert b.written[|a.written|..] + c.written[|b.written|..] == c.written[|a.written|..];
  }

  lemma NewLinesEncode(wire: Wire, w: Writer, w': Writer)
    requires w.written <= w'.written
    ensures forall text: string ::
      text + Encode(wire, w.written) + NewLines(wire, w, w') == text + Encode(wire, w'.written)
  {
    EncodeAppend(wire, w.written, w'.written[|w.written|..]);
    assert w.written + w'.written[|w.written|..] == w'.written;
    forall text: string
      ensures text + Encode(wire, w.written) + NewLines(wire, w, w') == text + Encode(wire, w'.written)
    {
      assert text + Encode(wire, w.written) + NewLines(wire, w, w')
        == text + (Encode(wire, w.written) + NewLines(wire, w, w'));
    }
  }

  lemma ControlGrows(wire: Wire, w: Writer, body: Body)
    requires !body.Content?
    ensures w.written <= AppendControl(wire, w, body).written
    ensures AppendControl(wire, w, body).finished == w.finished
  {
  }

  lemma {:induction false} RequestGrows(wire: Wire, w: Writer, drafts: seq<ContentDraft>)
    ensures w.written <= AppendRequest(wire, w, drafts).written
  {
    ProcessGrows(wire, w, drafts);
  }

  lemma {:induction false} ProcessGrows(wire: Wire, w: Writer, drafts: seq<ContentDraft>)
    ensures w.written <= Process(wire, w, drafts).w.written
  {
    if drafts == [] {
    } else {
      ProcessGrows(wire, w, drafts[..|drafts| - 1]);
    }
  }
}
