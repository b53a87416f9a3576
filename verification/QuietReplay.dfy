/**
 Exactly when a request submitted twice is quiet: for any request, with and without stable ids mixed, with
 response content appended in between. The conditions speak of the first submission only.
 */
module QuietReplay {
  import opened Basics
  import opened Conversation
  import opened ThreadStates
  import opened Reader
  import opened Writers
  import opened Dedup
  import opened Replay
  import ThreadIndexFile

  // ----- When one pass writes nothing -----

  /** The draft is found: by a key, or among the listed events of its identity. */
  predicate Found(wire: Wire, c: Core, drafts: seq<ContentDraft>, i: nat)
    requires i < |drafts|
  {
    || KnownByKey(c.itemRefs, drafts[..i], drafts[i])
    || Occurrence(wire, drafts, i) < |Refs(c.eventRefs, DraftIdentity(wire, drafts[i]))|
  }

  predicate AllFound(wire: Wire, c: Core, drafts: seq<ContentDraft>) {
    forall i :: 0 <= i < |drafts| ==> Found(wire, c, drafts, i)
  }

  /** A pass writes nothing exactly when every draft is found beforehand. */
  lemma {:induction false} WritesNothingIff(wire: Wire, w: Writer, drafts: seq<ContentDraft>)
    ensures w.written <= Process(wire, w, drafts).w.written
    ensures Process(wire, w, drafts).w.written == w.written <==> AllFound(wire, w.core, drafts)
    ensures AllFound(wire, w.core, drafts) ==> Process(wire, w, drafts).w.core.eventRefs == w.core.eventRefs
  {
    if drafts == [] {
    } else {
      hide Found, ProcessOne, StableKey, DraftIdentity, KnownByKey;
      var n := |drafts| - 1;
      var init, last := drafts[..n], drafts[n];
      WritesNothingIff(wire, w, init);
      forall i | 0 <= i < n ensures Found(wire, w.core, drafts, i) == Found(wire, w.core, init, i) {
        FoundInPrefix(wire, w.core, drafts, i);
      }
      LastFound(wire, w, drafts);
      StepWrites(wire, Process(wire, w, init), last);
    }
  }

  lemma FoundInPrefix(wire: Wire, c: Core, drafts: seq<ContentDraft>, i: nat)
    requires i < |drafts| - 1
    ensures Found(wire, c, drafts, i) == Found(wire, c, drafts[..|drafts| - 1], i)
  {
    assert drafts[..|drafts| - 1][..i] == drafts[..i];
  }

  lemma LastFound(wire: Wire, w: Writer, drafts: seq<ContentDraft>)
    requires drafts != []
    ensures var n := |drafts| - 1;
      var p := Process(wire, w, drafts[..n]);
      p.w.core.eventRefs == w.core.eventRefs ==>
        (Existing(wire, p.w.core, p.seen, drafts[n]).Some? <==> Found(wire, w.core, drafts, n))
  {
    hide StableKey, DraftIdentity, Process;
    var n := |drafts| - 1;
    KnownAfter(wire, w, drafts[..n], drafts[n]);
    SeenCounts(wire, w, drafts[..n], DraftIdentity(wire, drafts[n]));
  }

  lemma StepWrites(wire: Wire, p: Pass, draft: ContentDraft)
    ensures var q := ProcessOne(wire, p, draft);
      && p.w.written <= q.w.written
      && (q.w.written == p.w.written <==> Existing(wire, p.w.core, p.seen, draft).Some?)
      && (Existing(wire, p.w.core, p.seen, draft).Some? ==> q.w.core.eventRefs == p.w.core.eventRefs)
  {
    hide DraftIdentity, StableKey, Existing;
  }

  // ----- What the first submission and the responses leave -----

  /** How often an identity is listed after a request and its responses. */
  function Listed(wire: Wire, c: Core, drafts: seq<ContentDraft>, responses: seq<ContentDraft>, x: Identity): nat {
    var n := |Refs(c.eventRefs, x)|;
    if IsContentKind(x.kind) then n + Late(wire, c.itemRefs, drafts, x, n) + Count(wire, responses, x) else n
  }

  lemma {:induction false} ResponsesList(wire: Wire, w: Writer, responses: seq<ContentDraft>, x: Identity)
    requires !w.finished
    ensures var before, after := Refs(w.core.eventRefs, x), Refs(AppendAll(wire, w, responses).core.eventRefs, x);
      && before <= after
      && |after| == |before| + (if IsContentKind(x.kind) then Count(wire, responses, x) else 0)
  {
    if responses == [] {
    } else {
      hide AppendContent, DraftIdentity;
      var init, last := responses[..|responses| - 1], responses[|responses| - 1];
      ResponsesList(wire, w, init, x);
      AppendAllGrows(wire, w, init);
      OneResponse(wire, AppendAll(wire, w, init), last, x);
    }
  }

  /** One appended item: its list, and only that, gets its number. */
  lemma OneResponse(wire: Wire, w: Writer, draft: ContentDraft, x: Identity)
    requires !w.finished
    ensures var w' := AppendContent(wire, w, draft).0;
      && w'.seqNo == w.seqNo + 1 && !w'.finished
      && Refs(w'.core.eventRefs, x) == Refs(w.core.eventRefs, x)
           + (if DraftIdentity(wire, draft) == x && IsContentKind(x.kind) then [w.seqNo + 1] else [])
      && w'.core.itemRefs == SetItem(w.core.itemRefs, StableKey(draft), w.seqNo + 1)
  {
  }

  lemma ListedLength(wire: Wire, w: Writer, drafts: seq<ContentDraft>, mid: Writer, responses: seq<ContentDraft>,
      x: Identity)
    requires mid.core == Process(wire, w, drafts).w.core && !mid.finished
    ensures |Refs(AppendAll(wire, mid, responses).core.eventRefs, x)| == Listed(wire, w.core, drafts, responses, x)
  {
    hide Process, AppendAll, Late, Count;
    ResponsesList(wire, mid, responses, x);
    ListsGrow(wire, w, drafts, x);
    if IsContentKind(x.kind) { ListingLaw(wire, w, drafts, x); }
  }

  lemma {:induction false} ResponsesKeepKeys(wire: Wire, w: Writer, responses: seq<ContentDraft>, key: ItemKey)
    requires !w.finished && key in w.core.itemRefs
    ensures key in AppendAll(wire, w, responses).core.itemRefs
  {
    if responses == [] {
    } else {
      hide AppendContent, StableKey;
      var init, last := responses[..|responses| - 1], responses[|responses| - 1];
      ResponsesKeepKeys(wire, w, init, key);
      AppendAllGrows(wire, w, init);
      OneResponse(wire, AppendAll(wire, w, init), last, DraftIdentity(wire, last));
    }
  }

  /** Every key of the request is known to the second submission. */
  lemma RequestKeysAreKnown(wire: Wire, w: Writer, drafts: seq<ContentDraft>, mid: Writer, responses: seq<ContentDraft>)
    requires mid.core == Process(wire, w, drafts).w.core && !mid.finished
    ensures forall d <- drafts :: StableKey(d).Some? ==>
      StableKey(d).value in AppendAll(wire, mid, responses).core.itemRefs
  {
    hide Process, AppendAll, StableKey;
    forall d <- drafts | StableKey(d).Some?
      ensures StableKey(d).value in AppendAll(wire, mid, responses).core.itemRefs
    {
      KeysAfter(wire, w, drafts, StableKey(d).value);
      ResponsesKeepKeys(wire, mid, responses, StableKey(d).value);
    }
  }

  // ----- A turn, its responses, and the same request again -----

  function Done(wire: Wire, state: ThreadState, session: Session, turn: TurnContext, drafts: seq<ContentDraft>,
      responses: seq<ContentDraft>, status: Status, details: string): Writer
  {
    Finish(wire, AppendAll(wire, Begin(wire, state, session, turn, drafts), responses), status, details)
  }

  lemma BegunCore(wire: Wire, state: ThreadState, session: Session, turn: TurnContext, drafts: seq<ContentDraft>)
    ensures var before, begun := Preamble(wire, state, session, turn), Begin(wire, state, session, turn, drafts);
      var p := Process(wire, before, drafts);
      && begun.core == p.w.core && begun.seqNo == p.w.seqNo + 1 && !begun.finished
      && begun.written == p.w.written + [Record(Event(p.w.seqNo + 1, Context(Some(p.refs))))]
  {
    hide Process, Preamble;
    NotFinished(wire, state, session, turn);
    NotFinishedYet(wire, Preamble(wire, state, session, turn), drafts);
  }

  lemma NotFinished(wire: Wire, state: ThreadState, session: Session, turn: TurnContext)
    ensures !Preamble(wire, state, session, turn).finished
  {
  }

  lemma {:induction false} NotFinishedYet(wire: Wire, w: Writer, drafts: seq<ContentDraft>)
    ensures Process(wire, w, drafts).w.finished == w.finished
  {
    if drafts == [] {
    } else {
      NotFinishedYet(wire, w, drafts[..|drafts| - 1]);
    }
  }

  lemma DoneCore(wire: Wire, w: Writer, status: Status, details: string)
    requires !w.finished
    ensures Finish(wire, w, status, details).core == w.core && Finish(wire, w, status, details).lineCount != 0
  {
  }

  lemma {:induction false} ResponsesKeepWindow(wire: Wire, w: Writer, responses: seq<ContentDraft>)
    ensures AppendAll(wire, w, responses).core.window == w.core.window
  {
    if responses == [] {
    } else {
      ResponsesKeepWindow(wire, w, responses[..|responses| - 1]);
    }
  }

  /**
   When the session's next turn opens with a window line again, responses and finish included: exactly when
   this turn did and redaction changes the session's window id.
   */
  lemma NextTurnNeedsWindowIff(wire: Wire, state: ThreadState, session: Session, turn: TurnContext,
      drafts: seq<ContentDraft>, responses: seq<ContentDraft>, status: Status, details: string, stamp: Stamp)
    requires state.lineCount == 0 ==> state.core.window.None?
    ensures NeedsWindow(StateOf(Done(wire, state, session, turn, drafts, responses, status, details), stamp),
      session) <==>
      NeedsWindow(state, session) && RedactOption(wire, session.windowId) != session.windowId
  {
    hide Begin, AppendAll, Finish;
    var begun := Begin(wire, state, session, turn, drafts);
    WindowIsStableIff(wire, state, session, turn, drafts, stamp);
    BegunCore(wire, state, session, turn, drafts);
    AppendAllGrows(wire, begun, responses);
    ResponsesKeepWindow(wire, begun, responses);
    DoneCore(wire, AppendAll(wire, begun, responses), status, details);
    var done := Done(wire, state, session, turn, drafts, responses, status, details);
    SameWindow(StateOf(begun, stamp), StateOf(done, stamp), session);
  }

  /** Once there is a window, only the window decides. */
  lemma SameWindow(a: ThreadState, b: ThreadState, session: Session)
    requires a.core.window == b.core.window
    ensures NeedsWindow(a, session) <==> NeedsWindow(b, session)
  {
  }

  /** The second turn in the same window: its turn line, then what the pass over the same drafts adds. */
  lemma SecondTurn(wire: Wire, state: ThreadState, session: Session, first: TurnContext, drafts: seq<ContentDraft>,
      responses: seq<ContentDraft>, status: Status, details: string, stamp: Stamp, second: TurnContext)
    requires !NeedsWindow(StateOf(Done(wire, state, session, first, drafts, responses, status, details), stamp),
      session)
    ensures var begun := Begin(wire, state, session, first, drafts);
      var done := Done(wire, state, session, first, drafts, responses, status, details);
      var w := Preamble(wire, StateOf(done, stamp), session, second);
      && w.core == AppendAll(wire, begun, responses).core && w.seqNo == done.seqNo + 1
      && w.written == [Record(Event(done.seqNo + 1, TurnBody(wire, second)))]
  {
    hide NeedsWindow, Begin, AppendAll, Finish;
    var begun := Begin(wire, state, session, first, drafts);
    BegunCore(wire, state, session, first, drafts);
    AppendAllGrows(wire, begun, responses);
    DoneCore(wire, AppendAll(wire, begun, responses), status, details);
    var next := StateOf(Done(wire, state, session, first, drafts, responses, status, details), stamp);
    QuietPreamble(wire, next, session, second);
    PreambleCounts(wire, next, session, second);
  }

  /**
   When a replay writes no content: submitted again in the same window, a request adds its turn and context
   lines only exactly when each id-less draft occurs within the list its identity has by then.
   */
  lemma ReplayWritesNothingIff(
      wire: Wire, state: ThreadState, session: Session, first: TurnContext, drafts: seq<ContentDraft>,
      responses: seq<ContentDraft>, status: Status, details: string, stamp: Stamp, second: TurnContext)
    requires !NeedsWindow(StateOf(Done(wire, state, session, first, drafts, responses, status, details), stamp),
      session)
    ensures var before := Preamble(wire, state, session, first);
      var done := Done(wire, state, session, first, drafts, responses, status, details);
      |Begin(wire, StateOf(done, stamp), session, second, drafts).written| == 2 <==>
        forall i :: 0 <= i < |drafts| && StableKey(drafts[i]).None? ==>
          Occurrence(wire, drafts, i) < Listed(wire, before.core, drafts, responses, DraftIdentity(wire, drafts[i]))
  {
    hide Process, Preamble, NeedsWindow, Begin, AppendAll, Done, StableKey, DraftIdentity, Occurrence, Listed;
    var before, begun := Preamble(wire, state, session, first), Begin(wire, state, session, first, drafts);
    var next := StateOf(Done(wire, state, session, first, drafts, responses, status, details), stamp);
    var w := Preamble(wire, next, session, second);
    SecondTurn(wire, state, session, first, drafts, responses, status, details, stamp, second);
    BegunCore(wire, state, session, first, drafts);
    BegunCore(wire, next, session, second, drafts);
    WritesNothingIff(wire, w, drafts);
    RequestKeysAreKnown(wire, before, drafts, begun, responses);
    forall i | 0 <= i < |drafts|
      ensures Found(wire, w.core, drafts, i) <==> (StableKey(drafts[i]).None? ==>
        Occurrence(wire, drafts, i) < Listed(wire, before.core, drafts, responses, DraftIdentity(wire, drafts[i])))
    {
      ListedLength(wire, before, drafts, begun, responses, DraftIdentity(wire, drafts[i]));
      assert drafts[i] in drafts;
    }
  }

  // ----- When equal drafts get increasing references -----

  /**
   Two equal id-less drafts of a request get increasing references exactly when the later one is written, or
   the numbers listed for them increase. In a file in which others have repeated numbers they need not.
   */
  lemma RefsIncreaseIff(wire: Wire, w: Writer, drafts: seq<ContentDraft>, i: nat, j: nat)
    requires i < j < |drafts| && DraftIdentity(wire, drafts[i]) == DraftIdentity(wire, drafts[j])
    requires IdLess(wire, drafts, DraftIdentity(wire, drafts[i])) && IsContentKind(KindOf(drafts[i].body))
    requires NotAhead(w.core, w.seqNo)
    ensures var listed, refs := Refs(w.core.eventRefs, DraftIdentity(wire, drafts[i])), Process(wire, w, drafts).refs;
      && |refs| == |drafts|
      && Occurrence(wire, drafts, i) < Occurrence(wire, drafts, j)
      && (refs[i] < refs[j] <==>
           || Occurrence(wire, drafts, j) >= |listed|
           || listed[Occurrence(wire, drafts, i)] < listed[Occurrence(wire, drafts, j)])
  {
    hide Process, NotAhead, IdLess, DraftIdentity;
    var x := DraftIdentity(wire, drafts[i]);
    KindOfIdentity(wire, drafts[i]);
    CountingLaw(wire, w, drafts, x);
    CountMonotone(wire, drafts, i, j, x);
    ListIsSplit(wire, w, drafts, x);
  }

  /** Behind what was listed, the list holds the request's new numbers: increasing, and larger. */
  lemma {:induction false} ListIsSplit(wire: Wire, w: Writer, drafts: seq<ContentDraft>, x: Identity)
    requires IsContentKind(x.kind) && NotAhead(w.core, w.seqNo)
    ensures var before, after := Refs(w.core.eventRefs, x), Refs(Process(wire, w, drafts).w.core.eventRefs, x);
      && before <= after
      && (forall k, m :: 0 <= k < m < |after| && m >= |before| ==> after[k] < after[m])
  {
    hide ProcessOne, DraftIdentity, StableKey;
    if drafts == [] {
    } else {
      var p, last := Process(wire, w, drafts[..|drafts| - 1]), drafts[|drafts| - 1];
      ListIsSplit(wire, w, drafts[..|drafts| - 1], x);
      ProcessIsNotAhead(wire, w, drafts[..|drafts| - 1]);
      ListingStep(wire, p, last, x);
    }
  }

  // ----- When the references are the same too -----

  /** No number is ahead of the writer. */
  predicate NotAhead(c: Core, seqNo: nat) {
    && (forall x <- c.eventRefs, k: nat | k < |c.eventRefs[x]| :: c.eventRefs[x][k] <= seqNo)
    && (forall key <- c.itemRefs :: c.itemRefs[key] <= seqNo)
  }

  /** A state that fits its file, as every resolved state does, is not ahead of it. */
  lemma FitsIsNotAhead(state: ThreadState, base: seq<LineValue>)
    requires Fits(state, base)
    ensures NotAhead(state.core, state.seqNo)
  {
    hide Tracks;
    var events := Parse(base).value.events;
    ThreadIndexFile.TrackedRefsName(state.core, events);
    forall seqNo: nat | ThreadIndexFile.IsNumbered(events, seqNo) ensures seqNo <= state.seqNo {
      var e :| e in events && e.seqNo == seqNo;
      ThreadIndexFile.BoundedByMax(events, e);
    }
  }

  lemma {:induction false} ProcessIsNotAhead(wire: Wire, w: Writer, drafts: seq<ContentDraft>)
    requires NotAhead(w.core, w.seqNo)
    ensures var p := Process(wire, w, drafts);
      NotAhead(p.w.core, p.w.seqNo) && |p.refs| == |drafts| && forall k :: 0 <= k < |p.refs| ==> p.refs[k] <= p.w.seqNo
  {
    if drafts == [] {
    } else {
      hide ProcessOne, NotAhead;
      ProcessIsNotAhead(wire, w, drafts[..|drafts| - 1]);
      OneIsNotAhead(wire, Process(wire, w, drafts[..|drafts| - 1]), drafts[|drafts| - 1]);
    }
  }

  lemma OneIsNotAhead(wire: Wire, p: Pass, draft: ContentDraft)
    requires NotAhead(p.w.core, p.w.seqNo)
    ensures var q := ProcessOne(wire, p, draft);
      && NotAhead(q.w.core, q.w.seqNo) && q.w.seqNo >= p.w.seqNo
      && |q.refs| == |p.refs| + 1 && q.refs[..|p.refs|] == p.refs && q.refs[|p.refs|] <= q.w.seqNo
  {
    hide DraftIdentity, StableKey;
  }

  /** From position `n` on the list increases and is not ahead of the writer. */
  predicate Tail(list: seq<nat>, n: nat, seqNo: nat) {
    && n <= |list|
    && (forall k :: n <= k < |list| ==> list[k] <= seqNo)
    && (forall k, m :: n <= k < m < |list| ==> list[k] < list[m])
  }

  lemma {:induction false} ProcessTail(wire: Wire, w: Writer, drafts: seq<ContentDraft>, x: Identity)
    requires IsContentKind(x.kind)
    ensures var p := Process(wire, w, drafts);
      Tail(Refs(p.w.core.eventRefs, x), |Refs(w.core.eventRefs, x)|, p.w.seqNo)
  {
    if drafts == [] {
    } else {
      hide ProcessOne, DraftIdentity, StableKey;
      var p, last := Process(wire, w, drafts[..|drafts| - 1]), drafts[|drafts| - 1];
      ProcessTail(wire, w, drafts[..|drafts| - 1], x);
      ListingStep(wire, p, last, x);
      SeqStep(wire, p, last, x);
    }
  }

  lemma SeqStep(wire: Wire, p: Pass, draft: ContentDraft, x: Identity)
    ensures var q := ProcessOne(wire, p, draft);
      && q.w.seqNo >= p.w.seqNo
      && (Refs(q.w.core.eventRefs, x) != Refs(p.w.core.eventRefs, x) ==> q.w.seqNo == p.w.seqNo + 1)
  {
  }

  lemma {:induction false} ResponsesTail(wire: Wire, w: Writer, responses: seq<ContentDraft>, x: Identity, n: nat)
    requires !w.finished && Tail(Refs(w.core.eventRefs, x), n, w.seqNo)
    ensures var after := AppendAll(wire, w, responses);
      Tail(Refs(after.core.eventRefs, x), n, after.seqNo) && after.seqNo >= w.seqNo
  {
    if responses == [] {
    } else {
      hide AppendContent, DraftIdentity;
      var init, last := responses[..|responses| - 1], responses[|responses| - 1];
      ResponsesTail(wire, w, init, x, n);
      AppendAllGrows(wire, w, init);
      OneResponse(wire, AppendAll(wire, w, init), last, x);
    }
  }

  /** A key that a response carries points behind the request. */
  lemma {:induction false} ResponseKeyIsNew(wire: Wire, w: Writer, responses: seq<ContentDraft>, key: ItemKey)
    requires !w.finished && exists r <- responses :: StableKey(r) == Some(key)
    ensures var after := AppendAll(wire, w, responses);
      after.seqNo >= w.seqNo && key in after.core.itemRefs && after.core.itemRefs[key] > w.seqNo
  {
    hide AppendContent, DraftIdentity, StableKey;
    var init, last := responses[..|responses| - 1], responses[|responses| - 1];
    var mid := AppendAll(wire, w, init);
    var x := DraftIdentity(wire, last);
    AppendAllGrows(wire, w, init);
    SeqsGrow(wire, w, init);
    OneResponse(wire, mid, last, x);
    if StableKey(last) != Some(key) {
      assert exists r <- init :: StableKey(r) == Some(key);
      ResponseKeyIsNew(wire, w, init, key);
    }
  }

  lemma {:induction false} SeqsGrow(wire: Wire, w: Writer, responses: seq<ContentDraft>)
    ensures AppendAll(wire, w, responses).seqNo >= w.seqNo
  {
    if responses == [] {
    } else {
      SeqsGrow(wire, w, responses[..|responses| - 1]);
    }
  }

  /** A recalled id-less draft is where its occurrence says. */
  lemma PlaceForced(wire: Wire, w: Writer, drafts: seq<ContentDraft>, mid: Writer, responses: seq<ContentDraft>, i: nat)
    requires mid.core == Process(wire, w, drafts).w.core && mid.seqNo >= Process(wire, w, drafts).w.seqNo
      && !mid.finished
    requires Recalls(wire, AppendAll(wire, mid, responses).core, drafts, Process(wire, w, drafts).refs)
    requires i < |drafts| && StableKey(drafts[i]).None?
    ensures PlaceKept(wire, w.core, drafts, i)
  {
    hide Process, AppendAll, DraftIdentity, StableKey, Late;
    var x := DraftIdentity(wire, drafts[i]);
    var n, k := |Refs(w.core.eventRefs, x)|, Occurrence(wire, drafts, i);
    var list := Refs(AppendAll(wire, mid, responses).core.eventRefs, x);
    ResponsesList(wire, mid, responses, x);
    ListsGrow(wire, w, drafts, x);
    if k >= n && IsContentKind(x.kind) {
      ListingLaw(wire, w, drafts, x);
      assert Unkeyed(wire, w.core.itemRefs, drafts, i, x);
      LateIsFew(wire, w.core.itemRefs, drafts[..i], x, n);
      ProcessTail(wire, w, drafts, x);
      ResponsesTail(wire, mid, responses, x, n);
      var m := Place(wire, w.core.itemRefs, drafts, i, n);
      assert n <= m <= k < |list| && list[k] == list[m];
    }
  }

  /** Recalling the drafts behind the responses, in terms of the first submission. */
  lemma RecallsIff(wire: Wire, w: Writer, drafts: seq<ContentDraft>, mid: Writer, responses: seq<ContentDraft>)
    requires NotAhead(w.core, w.seqNo)
    requires mid.core == Process(wire, w, drafts).w.core && mid.seqNo >= Process(wire, w, drafts).w.seqNo
      && !mid.finished
    ensures Recalls(wire, AppendAll(wire, mid, responses).core, drafts, Process(wire, w, drafts).refs) <==>
      PlacesKept(wire, w.core, drafts) && KeysApart(drafts, responses)
  {
    hide Process, AppendAll, StableKey, PlaceKept, Occurrence, DraftIdentity, NotAhead;
    var refs, core := Process(wire, w, drafts).refs, AppendAll(wire, mid, responses).core;
    if PlacesKept(wire, w.core, drafts) && KeysApart(drafts, responses) {
      ProcessRecalls(wire, w, drafts);
      AppendKeepsRecall(wire, mid, drafts, refs, responses);
    }
    if Recalls(wire, core, drafts, refs) {
      forall i | 0 <= i < |drafts| && StableKey(drafts[i]).None? ensures PlaceKept(wire, w.core, drafts, i) {
        PlaceForced(wire, w, drafts, mid, responses, i);
      }
      ProcessIsNotAhead(wire, w, drafts);
      forall d <- drafts, r <- responses | StableKey(d).Some? ensures StableKey(r) != StableKey(d) {
        var i :| 0 <= i < |drafts| && drafts[i] == d;
        assert core.itemRefs[StableKey(d).value] == refs[i];
        if StableKey(r) == StableKey(d) { ResponseKeyIsNew(wire, mid, responses, StableKey(d).value); }
      }
    }
  }

  /** A pass that writes nothing and yields the references recalls them. */
  lemma QuietPassRecalls(wire: Wire, w: Writer, drafts: seq<ContentDraft>)
    requires Process(wire, w, drafts).w.written == w.written
    requires forall d <- drafts :: StableKey(d).Some? ==> StableKey(d).value in w.core.itemRefs
    ensures Recalls(wire, w.core, drafts, Process(wire, w, drafts).refs)
  {
    hide Process, DraftIdentity, StableKey;
    WritesNothingIff(wire, w, drafts);
    SeenCounts(wire, w, drafts, Identity(Usage, None, ""));
    forall i | 0 <= i < |drafts|
      ensures match StableKey(drafts[i])
        case Some(key) => key in w.core.itemRefs && w.core.itemRefs[key] == Process(wire, w, drafts).refs[i]
        case None =>
          var listed := Refs(w.core.eventRefs, DraftIdentity(wire, drafts[i]));
          Occurrence(wire, drafts, i) < |listed|
            && listed[Occurrence(wire, drafts, i)] == Process(wire, w, drafts).refs[i]
    {
      assert drafts[i] in drafts && Found(wire, w.core, drafts, i);
      if StableKey(drafts[i]).Some? {
        KeyedRefs(wire, w, drafts, i);
        KnownKeyStays(wire, w, drafts, StableKey(drafts[i]).value);
      } else {
        FoundInList(wire, w, drafts, i);
      }
    }
  }

  lemma {:induction false} KnownKeyStays(wire: Wire, w: Writer, drafts: seq<ContentDraft>, key: ItemKey)
    requires key in w.core.itemRefs
    ensures key in Process(wire, w, drafts).w.core.itemRefs
    ensures Process(wire, w, drafts).w.core.itemRefs[key] == w.core.itemRefs[key]
  {
    if drafts == [] {
    } else {
      hide ProcessOne, StableKey;
      KnownKeyStays(wire, w, drafts[..|drafts| - 1], key);
      KeyedStep(wire, Process(wire, w, drafts[..|drafts| - 1]), drafts[|drafts| - 1], key);
    }
  }

  lemma {:induction false} PreambleIsNotAhead(wire: Wire, state: ThreadState, session: Session, turn: TurnContext)
    requires NotAhead(state.core, state.seqNo)
    ensures NotAhead(Preamble(wire, state, session, turn).core, Preamble(wire, state, session, turn).seqNo)
  {
  }

  /**
   Replay is idempotent exactly when the places are kept and no response reuses a key of the request:
   submitted again in the same window, the request then writes its turn and context lines only, and the
   context holds the references of the first submission.
   */
  lemma ReplayIsIdempotentIff(
      wire: Wire, state: ThreadState, session: Session, first: TurnContext, drafts: seq<ContentDraft>,
      responses: seq<ContentDraft>, status: Status, details: string, stamp: Stamp, second: TurnContext)
    requires NotAhead(state.core, state.seqNo)
    requires !NeedsWindow(StateOf(Done(wire, state, session, first, drafts, responses, status, details), stamp),
      session)
    ensures var before := Preamble(wire, state, session, first);
      var done := Done(wire, state, session, first, drafts, responses, status, details);
      var refs := Process(wire, before, drafts).refs;
      var quiet :=
        [Record(Event(done.seqNo + 1, TurnBody(wire, second))), Record(Event(done.seqNo + 2, Context(Some(refs))))];
      Begin(wire, StateOf(done, stamp), session, second, drafts).written == quiet <==>
        PlacesKept(wire, before.core, drafts) && KeysApart(drafts, responses)
  {
    hide Process, Preamble, NeedsWindow, Begin, AppendAll, Done, StableKey, Recalls, PlacesKept, KeysApart, NotAhead;
    var before, begun := Preamble(wire, state, session, first), Begin(wire, state, session, first, drafts);
    var next := StateOf(Done(wire, state, session, first, drafts, responses, status, details), stamp);
    var w := Preamble(wire, next, session, second);
    var refs := Process(wire, before, drafts).refs;
    SecondTurn(wire, state, session, first, drafts, responses, status, details, stamp, second);
    BegunCore(wire, state, session, first, drafts);
    BegunCore(wire, next, session, second, drafts);
    PreambleIsNotAhead(wire, state, session, first);
    RecallsIff(wire, before, drafts, begun, responses);
    SeenCounts(wire, before, drafts, Identity(Usage, None, ""));
    if Recalls(wire, w.core, drafts, refs) {
      RecalledReplay(wire, w, drafts, refs, |drafts|);
      assert drafts[..|drafts|] == drafts && refs[..|refs|] == refs;
    } else {
      WritesNothingIff(wire, w, drafts);
      RequestKeysAreKnown(wire, before, drafts, begun, responses);
      var p := Process(wire, w, drafts);
      var again := Begin(wire, next, session, second, drafts).written;
      if p.w.written == w.written {
        QuietPassRecalls(wire, w, drafts);
        assert again[1] == Record(Event(p.w.seqNo + 1, Context(Some(p.refs))));
      } else {
        assert |p.w.written| > |w.written|;
        assert |again| > 2;
      }
    }
  }
}
