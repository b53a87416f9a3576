/**
 A request submitted twice: when the second submission writes nothing new, and the two ways the code
 falls short of that (a window id redaction rewrites, and identities with and without a stable id mixed).
 */
module Replay {
  import opened Basics
  import opened Conversation
  import opened ThreadStates
  import opened Reader
  import opened Writers
  import opened Dedup
  import RunScanner

  function AppendAll(wire: Wire, w: Writer, drafts: seq<ContentDraft>): Writer {
    if drafts == [] then w
    else AppendContent(wire, AppendAll(wire, w, drafts[..|drafts| - 1]), drafts[|drafts| - 1]).0
  }

  /** A request whose identities either always or never carry a stable id, and that holds no error or usage. */
  predicate Unmixed(wire: Wire, drafts: seq<ContentDraft>) {
    forall d <- drafts :: StableKey(d).None? ==>
      IsContentKind(KindOf(d.body)) && IdLess(wire, drafts, DraftIdentity(wire, d))
  }

  /** No response item reuses a stable key of the request. */
  predicate KeysApart(drafts: seq<ContentDraft>, responses: seq<ContentDraft>) {
    forall d <- drafts, r <- responses :: StableKey(d).Some? ==> StableKey(r) != StableKey(d)
  }

  /** Every draft is found again: by its key, or by its occurrence. */
  ghost predicate Recalls(wire: Wire, c: Core, drafts: seq<ContentDraft>, refs: seq<nat>) {
    && |refs| == |drafts|
    && forall i :: 0 <= i < |drafts| ==>
         match StableKey(drafts[i])
         case Some(key) => key in c.itemRefs && c.itemRefs[key] == refs[i]
         case None =>
           var listed := Refs(c.eventRefs, DraftIdentity(wire, drafts[i]));
           Occurrence(wire, drafts, i) < |listed| && listed[Occurrence(wire, drafts, i)] == refs[i]
  }

  lemma KeyedStep(wire: Wire, p: Pass, draft: ContentDraft, key: ItemKey)
    ensures var q := ProcessOne(wire, p, draft);
      && (key in p.w.core.itemRefs ==> key in q.w.core.itemRefs && q.w.core.itemRefs[key] == p.w.core.itemRefs[key])
      && (StableKey(draft) == Some(key) ==>
           key in q.w.core.itemRefs && q.w.core.itemRefs[key] == q.refs[|p.refs|])
  {
  }

  /** A stable key, once set during a request, keeps its number to the end of the request. */
  lemma {:induction false} KeyedRefs(wire: Wire, w: Writer, drafts: seq<ContentDraft>, i: nat)
    requires i < |drafts| && StableKey(drafts[i]).Some?
    ensures var p, key := Process(wire, w, drafts), StableKey(drafts[i]).value;
      |p.refs| == |drafts| && key in p.w.core.itemRefs && p.w.core.itemRefs[key] == p.refs[i]
  {
    hide ProcessOne, StableKey;
    var n := |drafts| - 1;
    var init := drafts[..n];
    var p := Process(wire, w, init);
    RefsOfPrefix(wire, w, drafts, n);
    SeenCounts(wire, w, init, Identity(Usage, None, ""));
    KeyedStep(wire, p, drafts[n], StableKey(drafts[i]).value);
    if i < n {
      KeyedRefs(wire, w, init, i);
      assert Process(wire, w, drafts).refs[..n][i] == p.refs[i];
    }
  }

  /** An id-less draft that occurs within its identity's list gets the listed event. */
  lemma {:induction false} FoundInList(wire: Wire, w: Writer, drafts: seq<ContentDraft>, i: nat)
    requires i < |drafts| && StableKey(drafts[i]).None?
    requires Occurrence(wire, drafts, i) < |Refs(w.core.eventRefs, DraftIdentity(wire, drafts[i]))|
    ensures |Process(wire, w, drafts).refs| == |drafts|
    ensures Process(wire, w, drafts).refs[i]
      == Refs(w.core.eventRefs, DraftIdentity(wire, drafts[i]))[Occurrence(wire, drafts, i)]
  {
    hide ProcessOne, StableKey, DraftIdentity;
    var n := |drafts| - 1;
    var init := drafts[..n];
    RefsOfPrefix(wire, w, drafts, n);
    SeenCounts(wire, w, drafts, DraftIdentity(wire, drafts[i]));
    if i < n {
      assert init[..i] == drafts[..i];
      FoundInList(wire, w, init, i);
      assert Process(wire, w, drafts).refs[..n][i] == Process(wire, w, init).refs[i];
    } else {
      var x := DraftIdentity(wire, drafts[n]);
      ListsGrow(wire, w, init, x);
      SeenCounts(wire, w, init, x);
      FoundStep(wire, Process(wire, w, init), drafts[n]);
    }
  }

  lemma FoundStep(wire: Wire, p: Pass, draft: ContentDraft)
    requires StableKey(draft).None?
    requires Seen(p.seen, DraftIdentity(wire, draft)) < |Refs(p.w.core.eventRefs, DraftIdentity(wire, draft))|
    ensures var k := Seen(p.seen, DraftIdentity(wire, draft));
      ProcessOne(wire, p, draft).refs == p.refs + [Refs(p.w.core.eventRefs, DraftIdentity(wire, draft))[k]]
  {
  }

  lemma {:induction false} ListsGrow(wire: Wire, w: Writer, drafts: seq<ContentDraft>, x: Identity)
    ensures Refs(w.core.eventRefs, x) <= Refs(Process(wire, w, drafts).w.core.eventRefs, x)
    ensures !IsContentKind(x.kind) ==> Refs(Process(wire, w, drafts).w.core.eventRefs, x) == Refs(w.core.eventRefs, x)
  {
    if drafts == [] {
    } else {
      hide StableKey, DraftIdentity, Existing;
      ListsGrow(wire, w, drafts[..|drafts| - 1], x);
    }
  }

  /** Each id-less draft's place in its list is its occurrence; usage and error drafts are never listed. */
  predicate PlacesKept(wire: Wire, c: Core, drafts: seq<ContentDraft>) {
    forall i :: 0 <= i < |drafts| && StableKey(drafts[i]).None? ==> PlaceKept(wire, c, drafts, i)
  }

  predicate PlaceKept(wire: Wire, c: Core, drafts: seq<ContentDraft>, i: nat)
    requires i < |drafts|
  {
    var x := DraftIdentity(wire, drafts[i]);
    var n := |Refs(c.eventRefs, x)|;
    || Occurrence(wire, drafts, i) < n
    || (IsContentKind(x.kind) && Place(wire, c.itemRefs, drafts, i, n) == Occurrence(wire, drafts, i))
  }

  lemma UnmixedKeepsPlaces(wire: Wire, c: Core, drafts: seq<ContentDraft>)
    requires Unmixed(wire, drafts)
    ensures PlacesKept(wire, c, drafts)
  {
    hide Place, Occurrence, DraftIdentity, StableKey, IdLess;
    forall i | 0 <= i < |drafts| && StableKey(drafts[i]).None? ensures PlaceKept(wire, c, drafts, i) {
      assert drafts[i] in drafts;
      KindOfIdentity(wire, drafts[i]);
      PlaceOfIdLess(wire, c.itemRefs, drafts, i, |Refs(c.eventRefs, DraftIdentity(wire, drafts[i]))|);
    }
  }

  lemma KindOfIdentity(wire: Wire, draft: ContentDraft)
    ensures DraftIdentity(wire, draft).kind == KindOf(draft.body)
  {
  }

  /** After a request, every one of its drafts is recalled when their places are kept. */
  lemma ProcessRecalls(wire: Wire, w: Writer, drafts: seq<ContentDraft>)
    requires PlacesKept(wire, w.core, drafts)
    ensures Recalls(wire, Process(wire, w, drafts).w.core, drafts, Process(wire, w, drafts).refs)
  {
    hide Process, StableKey, Place, Occurrence, DraftIdentity, Late;
    var p := Process(wire, w, drafts);
    SeenCounts(wire, w, drafts, Identity(Usage, None, ""));
    forall i | 0 <= i < |drafts|
      ensures match StableKey(drafts[i])
        case Some(key) => key in p.w.core.itemRefs && p.w.core.itemRefs[key] == p.refs[i]
        case None =>
          var listed := Refs(p.w.core.eventRefs, DraftIdentity(wire, drafts[i]));
          Occurrence(wire, drafts, i) < |listed| && listed[Occurrence(wire, drafts, i)] == p.refs[i]
    {
      if StableKey(drafts[i]).Some? {
        KeyedRefs(wire, w, drafts, i);
      } else {
        var x := DraftIdentity(wire, drafts[i]);
        assert PlaceKept(wire, w.core, drafts, i);
        ListsGrow(wire, w, drafts, x);
        if Occurrence(wire, drafts, i) < |Refs(w.core.eventRefs, x)| {
          FoundInList(wire, w, drafts, i);
        } else {
          ListingLaw(wire, w, drafts, x);
          assert Unkeyed(wire, w.core.itemRefs, drafts, i, x);
        }
      }
    }
  }

  /** One appended item: lists only grow at the end, and only its own key moves. */
  lemma AppendStep(wire: Wire, w: Writer, draft: ContentDraft)
    ensures var c, c' := w.core, AppendContent(wire, w, draft).0.core;
      && (forall x :: Refs(c.eventRefs, x) <= Refs(c'.eventRefs, x))
      && (forall key <- c.itemRefs :: StableKey(draft) != Some(key) ==>
           key in c'.itemRefs && c'.itemRefs[key] == c.itemRefs[key])
  {
  }

  /** Response content under other keys only adds to what is recalled. */
  lemma {:induction false} AppendKeepsRecall(wire: Wire, w: Writer, drafts: seq<ContentDraft>, refs: seq<nat>,
      responses: seq<ContentDraft>)
    requires Recalls(wire, w.core, drafts, refs) && KeysApart(drafts, responses)
    ensures Recalls(wire, AppendAll(wire, w, responses).core, drafts, refs)
  {
    if responses == [] {
    } else {
      hide StableKey, DraftIdentity, AppendContent;
      var init, last := responses[..|responses| - 1], responses[|responses| - 1];
      AppendKeepsRecall(wire, w, drafts, refs, init);
      AppendStep(wire, AppendAll(wire, w, init), last);
      assert forall i :: 0 <= i < |drafts| ==> drafts[i] in drafts;
      assert last in responses;
    }
  }

  /** A recalled draft is found when its identity was met as often as it occurs before it. */
  lemma RecalledExists(wire: Wire, w: Writer, drafts: seq<ContentDraft>, refs: seq<nat>, i: nat,
      seen: map<Identity, nat>)
    requires Recalls(wire, w.core, drafts, refs) && i < |drafts|
    requires Seen(seen, DraftIdentity(wire, drafts[i])) == Occurrence(wire, drafts, i)
    ensures Existing(wire, w.core, seen, drafts[i]) == Some(refs[i])
    ensures StableKey(drafts[i]).Some? ==>
      StableKey(drafts[i]).value in w.core.itemRefs && w.core.itemRefs[StableKey(drafts[i]).value] == refs[i]
    ensures |refs| == |drafts|
  {
    hide Occurrence, DraftIdentity, StableKey;
  }

  /** Replaying recalled drafts writes nothing, changes nothing and yields the same references. */
  lemma {:induction false} RecalledReplay(wire: Wire, w: Writer, drafts: seq<ContentDraft>, refs: seq<nat>, n: nat)
    requires Recalls(wire, w.core, drafts, refs) && n <= |drafts|
    ensures Process(wire, w, drafts[..n]).w == w
    ensures Process(wire, w, drafts[..n]).refs == refs[..n]
  {
    if n > 0 {
      hide DraftIdentity, StableKey, Recalls, Existing;
      RecalledReplay(wire, w, drafts, refs, n - 1);
      var draft := drafts[n - 1];
      assert drafts[..n][..n - 1] == drafts[..n - 1];
      var p := Process(wire, w, drafts[..n - 1]);
      SeenCounts(wire, w, drafts[..n - 1], DraftIdentity(wire, draft));
      RecalledExists(wire, w, drafts, refs, n - 1, p.seen);
      if StableKey(draft).Some? {
        assert w.core.itemRefs[StableKey(draft).value := refs[n - 1]] == w.core.itemRefs;
      }
      assert refs[..n] == refs[..n - 1] + [refs[n - 1]];
    }
  }

  /** The second turn opens without a window line when the window is still the session's. */
  lemma QuietPreamble(wire: Wire, state: ThreadState, session: Session, turn: TurnContext)
    requires state.lineCount != 0 && !NeedsWindow(state, session)
    ensures var w := Preamble(wire, state, session, turn);
      w.core == state.core && w.written == [Record(Event(state.seqNo + 1, TurnBody(wire, turn)))]
  {
  }

  /**
   Replay is idempotent: the same request, submitted again in the same window after the first turn was
   finished, writes its turn and context lines only, and its references are those of the first turn.
   Response content may have been appended in between, as long as it does not reuse a request's key.
   */
  lemma ReplayIsIdempotent(
      wire: Wire, state: ThreadState, session: Session, first: TurnContext, drafts: seq<ContentDraft>,
      responses: seq<ContentDraft>, status: Status, details: string, stamp: Stamp, second: TurnContext)
    requires PlacesKept(wire, Preamble(wire, state, session, first).core, drafts) && KeysApart(drafts, responses)
    requires var done :=
      Finish(wire, AppendAll(wire, Begin(wire, state, session, first, drafts), responses), status, details);
      !NeedsWindow(StateOf(done, stamp), session)
    ensures var before := Preamble(wire, state, session, first);
      var done := Finish(wire, AppendAll(wire, Begin(wire, state, session, first, drafts), responses), status, details);
      var refs := Process(wire, before, drafts).refs;
      var again := Begin(wire, StateOf(done, stamp), session, second, drafts);
      again.written ==
        [Record(Event(done.seqNo + 1, TurnBody(wire, second))), Record(Event(done.seqNo + 2, Context(Some(refs))))]
  {
    hide Process, Preamble, PlacesKept, KeysApart, NeedsWindow;
    var before := Preamble(wire, state, session, first);
    var p := Process(wire, before, drafts);
    ProcessRecalls(wire, before, drafts);
    var begun := Begin(wire, state, session, first, drafts);
    assert Recalls(wire, begun.core, drafts, p.refs) by { assert begun.core == p.w.core; }
    AppendKeepsRecall(wire, begun, drafts, p.refs, responses);
    var all := AppendAll(wire, begun, responses);
    AppendAllGrows(wire, begun, responses);
    var done := Finish(wire, all, status, details);
    assert done.core == all.core;
    var next := StateOf(done, stamp);
    QuietPreamble(wire, next, session, second);
    var w := Preamble(wire, next, session, second);
    PreambleCounts(wire, next, session, second);
    RecalledReplay(wire, w, drafts, p.refs, |drafts|);
    assert drafts[..|drafts|] == drafts && p.refs[..|p.refs|] == p.refs;
  }

  lemma {:induction false} AppendAllGrows(wire: Wire, w: Writer, drafts: seq<ContentDraft>)
    ensures AppendAll(wire, w, drafts).lineCount >= w.lineCount
    ensures AppendAll(wire, w, drafts).finished == w.finished
  {
    if drafts == [] {
    } else {
      AppendAllGrows(wire, w, drafts[..|drafts| - 1]);
    }
  }

  lemma PreambleCounts(wire: Wire, state: ThreadState, session: Session, turn: TurnContext)
    requires state.lineCount != 0 && !NeedsWindow(state, session)
    ensures Preamble(wire, state, session, turn).seqNo == state.seqNo + 1
  {
  }

  /**
   When the next turn of the same session needs no window line. The stored window id is the redacted one,
   so a turn that wrote its window is followed by another window line exactly when redaction changes the
   session's window id.
   */
  lemma WindowIsStableIff(wire: Wire, state: ThreadState, session: Session, turn: TurnContext,
      drafts: seq<ContentDraft>, stamp: Stamp)
    requires state.lineCount == 0 ==> state.core.window.None?
    ensures NeedsWindow(StateOf(Begin(wire, state, session, turn, drafts), stamp), session) <==>
      NeedsWindow(state, session) && RedactOption(wire, session.windowId) != session.windowId
  {
    ProcessKeepsWindow(wire, Preamble(wire, state, session, turn), drafts);
  }

  lemma {:induction false} ProcessKeepsWindow(wire: Wire, w: Writer, drafts: seq<ContentDraft>)
    ensures Process(wire, w, drafts).w.core.window == w.core.window
  {
    if drafts == [] {
    } else {
      ProcessKeepsWindow(wire, w, drafts[..|drafts| - 1]);
    }
  }

  /** A message whose item id the thread already knows, followed by the same message without an id. */
  function MixedRequest(id: string, json: string): seq<ContentDraft> {
    [ContentDraft(Some(id), MessageBody(Request, json)), ContentDraft(None, MessageBody(Request, json))]
  }

  /**
   With an identity both with and without a stable id the laws fail: the known id takes the occurrence
   that the second draft would have used. The request leaves one listed event instead of two, and
   replaying it writes the message again.
   */
  lemma MixedRequestWritesAgain(wire: Wire, w: Writer, id: string, json: string)
    requires ItemKey(Message, id) in w.core.itemRefs
    requires var x := DraftIdentity(wire, MixedRequest(id, json)[0]); Refs(w.core.eventRefs, x) == []
    ensures var x := DraftIdentity(wire, MixedRequest(id, json)[0]);
      var once := Process(wire, w, MixedRequest(id, json)).w;
      var twice := Process(wire, once, MixedRequest(id, json)).w;
      && Count(wire, MixedRequest(id, json), x) == 2
      && |Refs(once.core.eventRefs, x)| == 1
      && |twice.written| == |once.written| + 1
      && !Unmixed(wire, MixedRequest(id, json))
  {
    var drafts := MixedRequest(id, json);
    var x := DraftIdentity(wire, drafts[0]);
    assert drafts[..1] == [drafts[0]] && drafts[..1][..0] == [];
    assert DraftIdentity(wire, drafts[1]) == x && drafts[0] in drafts && drafts[1] in drafts;
    MixedPass(wire, w, id, json);
    MixedPass(wire, Process(wire, w, drafts).w, id, json);
    assert Count(wire, drafts[..1], x) == 1;
  }

  lemma MixedPass(wire: Wire, w: Writer, id: string, json: string)
    requires ItemKey(Message, id) in w.core.itemRefs
    requires var x := DraftIdentity(wire, MixedRequest(id, json)[0]); |Refs(w.core.eventRefs, x)| <= 1
    ensures var x := DraftIdentity(wire, MixedRequest(id, json)[0]);
      var p := Process(wire, w, MixedRequest(id, json));
      && ItemKey(Message, id) in p.w.core.itemRefs
      && |Refs(p.w.core.eventRefs, x)| == |Refs(w.core.eventRefs, x)| + 1
      && |p.w.written| == |w.written| + 1
  {
    var drafts := MixedRequest(id, json);
    assert drafts[..1] == [drafts[0]] && drafts[..1][..0] == [];
    var p0 := Process(wire, w, drafts[..1][..0]);
    assert p0 == Pass(w, [], map[]);
    var p1 := Process(wire, w, drafts[..1]);
    assert p1 == ProcessOne(wire, p0, drafts[0]);
    var x := DraftIdentity(wire, drafts[0]);
    assert Seen(p1.seen, x) == 1;
  }

  /** Setting one key on the live side and one in the file keeps them equal exactly when it is the same key. */
  lemma SetToolIff(live: map<ItemKey, nat>, cold: map<ItemKey, nat>, key: ItemKey, stored: ItemKey, seqNo: nat)
    requires ToolRefs(live) == cold && IsToolKind(key.kind) && IsToolKind(stored.kind)
    requires forall k <- cold :: cold[k] < seqNo
    ensures ToolRefs(live[key := seqNo]) == cold[stored := seqNo] <==> key == stored
  {
    var a, b := ToolRefs(live[key := seqNo]), cold[stored := seqNo];
    assert a[key] == seqNo;
    if key == stored {
      forall k | k in a || k in b ensures k in a && k in b && a[k] == b[k] {
        assert k in ToolRefs(live) <==> k in cold;
        if k in cold { assert ToolRefs(live)[k] == cold[k]; }
      }
    } else {
      assert key in b ==> b[key] == cold[key];
    }
  }

  /** Writing a tool event keeps the live tool references equal to the file's exactly when redaction keeps its id. */
  lemma ToolRefsAgreeIff(wire: Wire, w: Writer, base: seq<LineValue>, draft: ContentDraft)
    requires InSync(w, base) && ToolsInSync(w, base) && ToolId(draft.body).Some?
    ensures var w' := WriteContent(wire, w, draft);
      ToolRefs(w'.core.itemRefs) == Rebuild(EventsIn(base + w'.written)).itemRefs <==> KeepsToolId(wire, draft.body)
  {
    hide Parse, Rebuild, ToolRefs;
    var w' := WriteContent(wire, w, draft);
    var body := Content(KindOf(draft.body), PayloadOf(wire, draft.body));
    var e, values := Event(w.seqNo + 1, body), base + w.written;
    WindowGrows(values, e);
    assert base + w'.written == values + [Record(e)];
    var events := EventsIn(values);
    RebuildSnoc(events, e);
    ColdKeys(events);
    MaxIsLast(values);
    RebuildIsToolOnly(events);
    SetToolIff(w.core.itemRefs, Rebuild(events).itemRefs, StableKey(draft).value,
      StoredKey(body.kind, body.payload).value, e.seqNo);
  }

  /** The draft's key is known already: remembering it again changes nothing. */
  lemma KnownToolKey(wire: Wire, p: Pass, base: seq<LineValue>, draft: ContentDraft)
    requires StableKey(draft).Some? && StableKey(draft).value in p.w.core.itemRefs && ToolsInSync(p.w, base)
    ensures ToolsInSync(ProcessOne(wire, p, draft).w, base)
  {
    hide Parse, ToolRefs, Rebuild, DraftIdentity, StableKey;
    var key := StableKey(draft).value;
    assert p.w.core.itemRefs[key := p.w.core.itemRefs[key]] == p.w.core.itemRefs;
  }

  /** A tool draft found by its occurrence, under a key nobody knows: redaction has changed its id. */
  lemma FoundUnderOtherKey(wire: Wire, p: Pass, base: seq<LineValue>, draft: ContentDraft)
    requires InSync(p.w, base) && ToolsInSync(p.w, base) && ToolId(draft.body).Some?
    requires StableKey(draft).value !in p.w.core.itemRefs && Existing(wire, p.w.core, p.seen, draft).Some?
    ensures !KeepsToolId(wire, draft.body) && !ToolsInSync(ProcessOne(wire, p, draft).w, base)
  {
    hide Parse, Rebuild, KeepsToolId;
    var events, key, x := Parse(base + p.w.written).value.events, StableKey(draft).value, DraftIdentity(wire, draft);
    var w', cold := ProcessOne(wire, p, draft).w, Rebuild(events).itemRefs;
    RebuildListedToolsHaveKeys(events);
    var stored := ItemKey(x.kind, x.toolCallId.value);
    assert stored in cold && stored in ToolRefs(cold) && stored in ToolRefs(p.w.core.itemRefs);
    KeptIdIsStored(wire, draft);
    assert key !in ToolRefs(p.w.core.itemRefs) && key !in ToolRefs(cold);
    assert key in ToolRefs(w'.core.itemRefs);
    assert base + w'.written == base + p.w.written;
  }

  lemma KeptIdIsStored(wire: Wire, draft: ContentDraft)
    requires ToolId(draft.body).Some?
    ensures DraftIdentity(wire, draft).toolCallId.Some? && IsToolKind(KindOf(draft.body))
    ensures var x := DraftIdentity(wire, draft);
      KeepsToolId(wire, draft.body) <==> ItemKey(x.kind, x.toolCallId.value) == StableKey(draft).value
  {
  }

  /**
   A tool draft of a request leaves live and reloaded tool references equal exactly when redaction keeps its
   id or its key is known already; this covers drafts that are written and drafts found by their occurrence.
   */
  lemma DraftKeepsToolsIff(wire: Wire, p: Pass, base: seq<LineValue>, draft: ContentDraft)
    requires InSync(p.w, base) && ToolsInSync(p.w, base) && ToolId(draft.body).Some?
    ensures ToolsInSync(ProcessOne(wire, p, draft).w, base) <==>
      KeepsToolId(wire, draft.body) || StableKey(draft).value in p.w.core.itemRefs
  {
    hide Parse, Rebuild, ToolRefs, InSync, KeepsToolId, ToolsInSync;
    var existing := Existing(wire, p.w.core, p.seen, draft);
    if StableKey(draft).value in p.w.core.itemRefs {
      KnownToolKey(wire, p, base, draft);
    } else if existing.Some? {
      FoundUnderOtherKey(wire, p, base, draft);
    } else {
      ToolRefsAgreeIff(wire, p.w, base, draft);
      WrittenToolsInSync(wire, p.w, base, draft);
    }
  }

  lemma WrittenToolsInSync(wire: Wire, w: Writer, base: seq<LineValue>, draft: ContentDraft)
    requires InSync(w, base)
    ensures var w' := WriteContent(wire, w, draft);
      ToolsInSync(w', base) <==> ToolRefs(w'.core.itemRefs) == Rebuild(EventsIn(base + w'.written)).itemRefs
  {
    hide Parse, Rebuild, ToolRefs;
    var w' := WriteContent(wire, w, draft);
    var e := Event(w.seqNo + 1, Content(KindOf(draft.body), PayloadOf(wire, draft.body)));
    ParseOneMore(base + w.written, e);
    assert base + w'.written == base + w.written + [Record(e)];
    RebuildIsToolOnly(EventsIn(base + w'.written));
  }

  /**
   Under the run scanner alone, a tool call id made of URL-safe characters is kept exactly when it is not
   43 characters long: the ids that break the agreement above are those that look like credentials.
   */
  lemma CredentialLikeIdsBreak(wire: Wire, body: ContentBody)
    requires forall s: string :: wire.redactText(s) == RunScanner.Redact(s)
    requires body.ToolCallBody? || body.ToolResultBody?
    requires forall c <- body.toolCallId ::
      'a' <= c <= 'z' || 'A' <= c <= 'Z' || '0' <= c <= '9' || c == '-' || c == '_'
    ensures KeepsToolId(wire, body) <==> |body.toolCallId| != 43
  {
    RunScanner.TokenIsKeptIff(ToolId(body).value);
  }

  /**
   The digest chain of the live state stays equal to the one a reload computes exactly as long as what is
   written is a content event: errors and usage enter the live chain but are filtered out when reloading.
   */
  lemma ChainAgreesIff(wire: Wire, w: Writer, base: seq<LineValue>, draft: ContentDraft)
    requires InSync(w, base) && w.core.content == Rebuild(EventsIn(base + w.written)).content
    ensures var w' := WriteContent(wire, w, draft);
      w'.core.content == Rebuild(EventsIn(base + w'.written)).content <==> IsContentKind(KindOf(draft.body))
  {
    hide Parse;
    var w' := WriteContent(wire, w, draft);
    var e := Event(w.seqNo + 1, Content(KindOf(draft.body), PayloadOf(wire, draft.body)));
    WindowGrows(base + w.written, e);
    assert base + w'.written == base + w.written + [Record(e)];
    RebuildSnoc(EventsIn(base + w.written), e);
    assert |w'.core.content| == |w.core.content| + 1;
  }

  /** A rebuilt state holds tool keys only, and no number ahead of the file. */
  lemma {:induction false} ColdKeys(events: seq<Event>)
    ensures forall key <- Rebuild(events).itemRefs ::
      IsToolKind(key.kind) && Rebuild(events).itemRefs[key] <= MaxSeq(events)
  {
    if events == [] {
    } else {
      ColdKeys(events[..|events| - 1]);
    }
  }

  lemma MaxIsLast(values: seq<LineValue>)
    requires Parse(values).Ok?
    ensures Parse(values).value.lastSeq == MaxSeq(EventsIn(values))
  {
  }
}
