/**
 The state a writer resumes from (`store/rollout/cache.rs`, `ThreadState`), rebuilt from a file's
 events by one pass.
 */
module ThreadStates {
  import opened Basics
  import opened Conversation

  datatype Format = V1 | Legacy

  datatype Key = Key(identity: string, thread: string)

  /** One candidate file of a thread: segment 0 is the base, 1 to 10 are the recovered segments. */
  datatype Path = Path(key: Key, segment: nat)

  /** `FileStamp`: every modification of a file gets a later time. */
  datatype Stamp = Stamp(len: nat, modified: Option<nat>)

  const NoStamp := Stamp(0, None)

  /** The part of the state that is a function of the events. `content` stands for the digest chain. */
  datatype Core = Core(
    window: Option<WindowState>,
    content: seq<Identity>,
    eventRefs: map<Identity, seq<nat>>,
    itemRefs: map<ItemKey, nat>,
    contentEventCount: nat)

  const EmptyCore := Core(None, [], map[], map[], 0)

  datatype ThreadState = ThreadState(
    path: Path, format: Format, stamp: Stamp, lineCount: nat, seqNo: nat, core: Core)

  /** `ThreadState::empty` */
  function EmptyState(path: Path): ThreadState {
    ThreadState(path, V1, NoStamp, 0, 0, EmptyCore)
  }

  datatype Session = Session(windowId: Option<string>, generation: nat)

  function Refs(refs: map<Identity, seq<nat>>, x: Identity): seq<nat> {
    if x in refs then refs[x] else []
  }

  function SetItem(items: map<ItemKey, nat>, key: Option<ItemKey>, seqNo: nat): map<ItemKey, nat> {
    if key.Some? then items[key.value := seqNo] else items
  }

  /** One event read back from a file. */
  function Apply(c: Core, e: Event): Core {
    match e.body
    case Window(window) => c.(window := window, eventRefs := map[])
    case Content(kind, payload) =>
      if IsContentKind(kind) then
        var x := IdentityOf(kind, payload);
        Core(c.window, c.content + [x], c.eventRefs[x := Refs(c.eventRefs, x) + [e.seqNo]],
             SetItem(c.itemRefs, StoredKey(kind, payload), e.seqNo), c.contentEventCount + 1)
      else c
    case _ => c
  }

  /** The slow form: everything the file says, from the first event to the last. */
  function Rebuild(events: seq<Event>): Core {
    if events == [] then EmptyCore else Apply(Rebuild(events[..|events| - 1]), events[|events| - 1])
  }

  lemma RebuildSnoc(events: seq<Event>, e: Event)
    ensures Rebuild(events + [e]) == Apply(Rebuild(events), e)
  {
    assert (events + [e])[..|events|] == events;
  }

  /** `ThreadState::from_events`: the loop that fills and clears the maps. */
  method FromEvents(path: Path, stamp: Stamp, format: Format, events: seq<Event>, lineCount: nat, lastSeq: nat)
    returns (state: ThreadState)
    ensures state == ThreadState(path, format, stamp, lineCount, lastSeq, Rebuild(events))
  {
    var eventRefs: map<Identity, seq<nat>> := map[];
    var itemRefs: map<ItemKey, nat> := map[];
    var window: Option<WindowState> := None;
    var content: seq<Identity> := [];
    var count := 0;
    for i := 0 to |events|
      invariant Rebuild(events[..i]) == Core(window, content, eventRefs, itemRefs, count)
    {
      var event := events[i];
      assert events[..i + 1][..i] == events[..i];
      if event.body.Window? {
        window := event.body.window;
        eventRefs := map[];
      } else if event.body.Content? && IsContentKind(event.body.kind) {
        var x := IdentityOf(event.body.kind, event.body.payload);
        content := content + [x];
        eventRefs := eventRefs[x := (if x in eventRefs then eventRefs[x] else []) + [event.seqNo]];
        count := count + 1;
        var key := StoredKey(event.body.kind, event.body.payload);
        if key.Some? {
          itemRefs := itemRefs[key.value := event.seqNo];
        }
      }
    }
    assert events[..|events|] == events;
    state := ThreadState(path, format, stamp, lineCount, lastSeq, Core(window, content, eventRefs, itemRefs, count));
  }

  /** `window_changed` */
  predicate WindowChanged(state: ThreadState, session: Session) {
    match state.core.window
    case Some(w) => w.generation != session.generation || w.windowId != session.windowId
    case None => state.lineCount != 0 && (session.generation > 0 || session.windowId.Some?)
  }

  // ----- What the maps mean, independently of the pass that fills them -----

  /** Position just behind the last window event (0 when there is none). */
  function WindowStart(events: seq<Event>): (n: nat)
    ensures n <= |events|
  {
    if events == [] || events[|events| - 1].body.Window? then |events|
    else WindowStart(events[..|events| - 1])
  }

  predicate HasIdentity(e: Event, x: Identity) {
    e.body.Content? && IdentityOf(e.body.kind, e.body.payload) == x
  }

  /** The sequence numbers, in file order, of the events with identity `x`. */
  function SeqsOf(events: seq<Event>, x: Identity): seq<nat> {
    if events == [] then []
    else
      var last := events[|events| - 1];
      SeqsOf(events[..|events| - 1], x) + (if HasIdentity(last, x) then [last.seqNo] else [])
  }

  lemma SeqsOfSnoc(events: seq<Event>, e: Event, x: Identity)
    ensures SeqsOf(events + [e], x) == SeqsOf(events, x) + (if HasIdentity(e, x) then [e.seqNo] else [])
  {
    assert (events + [e])[..|events|] == events;
  }

  /** The reference lists are exactly the current window's events, by identity, in file order. */
  lemma {:induction false} RebuildRefsAreWindowSeqs(events: seq<Event>, x: Identity)
    requires IsContentKind(x.kind)
    ensures Refs(Rebuild(events).eventRefs, x) == SeqsOf(events[WindowStart(events)..], x)
  {
    if events == [] {
    } else {
      var init, last := events[..|events| - 1], events[|events| - 1];
      RebuildRefsAreWindowSeqs(init, x);
      if !last.body.Window? {
        assert events[WindowStart(events)..] == init[WindowStart(init)..] + [last];
        SeqsOfSnoc(init[WindowStart(init)..], last, x);
      }
    }
  }

  /** Only content kinds are ever listed. */
  lemma {:induction false} RebuildListsContentOnly(events: seq<Event>)
    ensures forall x <- Rebuild(events).eventRefs :: IsContentKind(x.kind) && Rebuild(events).eventRefs[x] != []
  {
    if events == [] {
    } else {
      RebuildListsContentOnly(events[..|events| - 1]);
    }
  }

  /** The last tool event with this key, searching the whole file: the window does not matter. */
  function LastWithKey(events: seq<Event>, key: ItemKey): Option<nat> {
    if events == [] then None
    else
      var last := events[|events| - 1];
      if last.body.Content? && StoredKey(last.body.kind, last.body.payload) == Some(key) then Some(last.seqNo)
      else LastWithKey(events[..|events| - 1], key)
  }

  lemma {:induction false} RebuildItemsAreLastToolEvents(events: seq<Event>, key: ItemKey)
    ensures key in Rebuild(events).itemRefs <==> LastWithKey(events, key).Some?
    ensures key in Rebuild(events).itemRefs ==>
      IsToolKind(key.kind) && LastWithKey(events, key) == Some(Rebuild(events).itemRefs[key])
  {
    if events == [] {
    } else {
      RebuildItemsAreLastToolEvents(events[..|events| - 1], key);
    }
  }

  /** The identities of the content events, in file order: what the digest chain runs over. */
  function ContentOf(events: seq<Event>): seq<Identity> {
    if events == [] then []
    else
      var e, rest := events[0], ContentOf(events[1..]);
      if e.body.Content? && e.body.kind in {Message, Reasoning, ToolCall, ToolResult} then
        [IdentityOf(e.body.kind, e.body.payload)] + rest
      else rest
  }

  lemma {:induction false} ContentOfSnoc(events: seq<Event>, e: Event)
    ensures ContentOf(events + [e]) == ContentOf(events) + ContentOf([e])
  {
    if events == [] {
      assert [] + [e] == [e] && [e][1..] == [];
    } else {
      assert (events + [e])[1..] == events[1..] + [e];
      ContentOfSnoc(events[1..], e);
    }
  }

  /** The rebuilt chain and count are those of all content events of the file; windows do not matter. */
  lemma {:induction false} RebuildCountsContent(events: seq<Event>)
    ensures Rebuild(events).content == ContentOf(events)
    ensures Rebuild(events).contentEventCount == |ContentOf(events)|
  {
    if events == [] {
    } else {
      var init, last := events[..|events| - 1], events[|events| - 1];
      RebuildCountsContent(init);
      ContentOfSnoc(init, last);
      assert events == init + [last] && [last][1..] == [];
    }
  }

  /** The rebuilt window is that of the last window event; there is none before the first. */
  lemma {:induction false} RebuildWindowIsLast(events: seq<Event>)
    ensures var n := WindowStart(events);
      && (n == 0 ==> Rebuild(events).window == None)
      && (n > 0 ==> events[n - 1].body.Window? && Rebuild(events).window == events[n - 1].body.window)
    ensures forall k :: WindowStart(events) <= k < |events| ==> !events[k].body.Window?
  {
    if events == [] {
    } else {
      RebuildWindowIsLast(events[..|events| - 1]);
    }
  }

  // ----- Agreement of a live state with a rebuilt one -----

  function ToolRefs(items: map<ItemKey, nat>): map<ItemKey, nat> {
    map key | key in items && IsToolKind(key.kind) :: items[key]
  }

  /**
   The live state agrees with the file: same window, same reference lists and count. The item references
   are a matter of their own: message item ids are not in the file, and tool ids are there as redacted.
   */
  predicate Agrees(live: Core, cold: Core) {
    && live.window == cold.window
    && live.eventRefs == cold.eventRefs
    && live.contentEventCount == cold.contentEventCount
  }

  /** The live tool references are those of the file. */
  predicate ToolsAgree(live: Core, events: seq<Event>) {
    ToolRefs(live.itemRefs) == ToolRefs(Rebuild(events).itemRefs)
  }

  /** A rebuilt state has tool references only. */
  lemma {:induction false} RebuildIsToolOnly(events: seq<Event>)
    ensures ToolRefs(Rebuild(events).itemRefs) == Rebuild(events).itemRefs
  {
    forall key <- Rebuild(events).itemRefs ensures IsToolKind(key.kind) {
      RebuildItemsAreLastToolEvents(events, key);
    }
  }

  /** Every listed tool event can also be found through its key. */
  predicate ListedToolsHaveKeys(c: Core) {
    forall x <- c.eventRefs :: IsToolKind(x.kind) && x.toolCallId.Some? ==>
      ItemKey(x.kind, x.toolCallId.value) in c.itemRefs
  }

  lemma {:induction false} RebuildListedToolsHaveKeys(events: seq<Event>)
    ensures ListedToolsHaveKeys(Rebuild(events))
  {
    if events == [] {
    } else {
      RebuildListedToolsHaveKeys(events[..|events| - 1]);
    }
  }

  /** The file has a content event of this kind under this number. */
  ghost predicate Holds(events: seq<Event>, seqNo: nat, kind: Kind) {
    exists i :: 0 <= i < |events| && events[i].seqNo == seqNo && events[i].body.Content? && events[i].body.kind == kind
  }

  /** Every stable key points at an event of its own kind. */
  ghost predicate ItemsSound(c: Core, events: seq<Event>) {
    forall key <- c.itemRefs :: Holds(events, c.itemRefs[key], key.kind)
  }

  /** The live state stands for this file: it agrees with the slow form and its keys point into the file. */
  ghost predicate Tracks(c: Core, events: seq<Event>) {
    Agrees(c, Rebuild(events)) && ItemsSound(c, events)
  }

  lemma HoldsLater(events: seq<Event>, more: seq<Event>, seqNo: nat, kind: Kind)
    requires Holds(events, seqNo, kind)
    ensures Holds(events + more, seqNo, kind)
  {
    var i :| 0 <= i < |events| && events[i].seqNo == seqNo && events[i].body.Content? && events[i].body.kind == kind;
    assert (events + more)[i] == events[i];
  }

  lemma HoldsLast(events: seq<Event>, e: Event)
    requires e.body.Content?
    ensures Holds(events + [e], e.seqNo, e.body.kind)
  {
    assert (events + [e])[|events|] == e;
  }

  /** A state rebuilt from a file tracks that file. */
  lemma {:induction false} RebuildTracks(events: seq<Event>)
    ensures Tracks(Rebuild(events), events)
  {
    if events == [] {
    } else {
      var init, last := events[..|events| - 1], events[|events| - 1];
      RebuildTracks(init);
      assert init + [last] == events;
      forall key <- Rebuild(events).itemRefs ensures Holds(events, Rebuild(events).itemRefs[key], key.kind) {
        if key in Rebuild(init).itemRefs && Rebuild(events).itemRefs[key] == Rebuild(init).itemRefs[key] {
          HoldsLater(init, [last], Rebuild(init).itemRefs[key], key.kind);
        } else {
          HoldsLast(init, last);
        }
      }
    }
  }

  /** Every listed number names an event of the current window with that identity. */
  lemma {:induction false} SeqsOfNames(events: seq<Event>, x: Identity, k: nat) returns (i: nat)
    requires k < |SeqsOf(events, x)|
    ensures i < |events| && events[i].seqNo == SeqsOf(events, x)[k] && HasIdentity(events[i], x)
  {
    var init := events[..|events| - 1];
    if k < |SeqsOf(init, x)| {
      i := SeqsOfNames(init, x, k);
    } else {
      i := |events| - 1;
    }
  }
}
