/**
 Reading a turn's context back from a file (`store/rollout/mod.rs`): `context_refs_for_turn` and
 `resolve_refs`.
 */
module TurnViews {
  import opened Basics
  import opened Conversation
  import opened ThreadStates
  import opened Reader
  import opened Writers
  import opened Dedup

  predicate IsTurn(e: Event, turnId: string) {
    e.body.Turn? && e.body.turnId == Some(turnId)
  }

  /** The first context event. */
  function FirstContext(events: seq<Event>): Option<seq<nat>> {
    if events == [] then None
    else if events[0].body.Context? then events[0].body.refs
    else FirstContext(events[1..])
  }

  /** The context event that follows the first turn event with this id. */
  function ContextRefs(events: seq<Event>, turnId: string): Option<seq<nat>> {
    if events == [] then None
    else if IsTurn(events[0], turnId) then FirstContext(events[1..])
    else ContextRefs(events[1..], turnId)
  }

  /** `context_refs_for_turn`: one pass with a flag. */
  method ContextRefsForTurn(events: seq<Event>, turnId: string) returns (refs: Option<seq<nat>>)
    ensures refs == ContextRefs(events, turnId)
  {
    var matched := false;
    for i := 0 to |events|
      invariant ContextRefs(events, turnId) ==
        if matched then FirstContext(events[i..]) else ContextRefs(events[i..], turnId)
    {
      assert events[i..][1..] == events[i + 1..];
      if IsTurn(events[i], turnId) {
        matched := true;
      } else if matched && events[i].body.Context? {
        return events[i].body.refs;
      }
    }
    refs := None;
  }

  lemma {:induction false} ContextBehind(before: seq<Event>, turnId: string, after: seq<Event>)
    requires forall e <- before :: !IsTurn(e, turnId)
    ensures ContextRefs(before + after, turnId) == ContextRefs(after, turnId)
  {
    if before == [] {
      assert before + after == after;
    } else {
      assert (before + after)[1..] == before[1..] + after;
      ContextBehind(before[1..], turnId, after);
    }
  }

  lemma {:induction false} ContextBehindContent(content: seq<Event>, after: seq<Event>)
    requires forall e <- content :: e.body.Content?
    ensures FirstContext(content + after) == FirstContext(after)
  {
    if content == [] {
      assert content + after == after;
    } else {
      assert (content + after)[1..] == content[1..] + after;
      ContextBehindContent(content[1..], after);
    }
  }

  /** A request only adds content events to the file. */
  lemma {:induction false} ProcessAddsContent(wire: Wire, w: Writer, base: seq<LineValue>,
      drafts: seq<ContentDraft>) returns (added: seq<Event>)
    requires InSync(w, base)
    ensures EventsIn(base + Process(wire, w, drafts).w.written) == EventsIn(base + w.written) + added
    ensures forall e <- added :: e.body.Content?
  {
    hide InSync, EventsIn;
    if drafts == [] {
      added := [];
    } else {
      var n := |drafts| - 1;
      added := ProcessAddsContent(wire, w, base, drafts[..n]);
      SyncProcess(wire, w, base, drafts[..n]);
      var p, q := Process(wire, w, drafts[..n]), Process(wire, w, drafts);
      if Existing(wire, p.w.core, p.seen, drafts[n]).None? {
        var e := Event(p.w.seqNo + 1, Content(KindOf(drafts[n].body), PayloadOf(wire, drafts[n].body)));
        assert base + q.w.written == base + p.w.written + [Record(e)];
        SyncIsReadable(p.w, base);
        WindowGrows(base + p.w.written, e);
        assert EventsIn(base + w.written) + added + [e] == EventsIn(base + w.written) + (added + [e]);
        added := added + [e];
      } else {
        assert q.w.written == p.w.written;
      }
    }
  }

  lemma SyncIsReadable(w: Writer, base: seq<LineValue>)
    requires InSync(w, base)
    ensures base + w.written != [] && Parse(base + w.written).Ok?
  {
  }

  /** One more event line. */
  lemma EventsGrow(before: seq<LineValue>, e: Event)
    requires before != [] && Parse(before).Ok?
    ensures Parse(before + [Record(e)]).Ok? && EventsIn(before + [Record(e)]) == EventsIn(before) + [e]
  {
    hide Parse;
    ParseOneMore(before, e);
  }

  /** The window event a turn opens with, if it needs one. */
  function WindowEvents(wire: Wire, state: ThreadState, session: Session): seq<Event> {
    if state.lineCount == 0 || NeedsWindow(state, session) then [Event(state.seqNo + 1, WindowBody(wire, session))]
    else []
  }

  /** The preamble ends with the turn event, and nothing it writes before is a turn event. */
  lemma PreambleEvents(wire: Wire, state: ThreadState, session: Session, turn: TurnContext,
      base: seq<LineValue>) returns (window: seq<Event>)
    requires Fits(state, base) && state.path.key.thread != ""
    ensures var w := Preamble(wire, state, session, turn);
      EventsIn(base + w.written) == EventsIn(base) + window + [Event(w.seqNo, TurnBody(wire, turn))]
    ensures window == WindowEvents(wire, state, session)
  {
    hide Parse, EventsIn, NeedsWindow, Fits;
    var w0 := Opened(state, turn.turnId);
    var w1 := if state.lineCount == 0 then WriteLine(wire, w0, Header(state.path.key.thread)) else w0;
    var start, w2 := base + w1.written, w1;
    OpenedEvents(wire, state, turn, base);
    window := WindowEvents(wire, state, session);
    if state.lineCount == 0 || NeedsWindow(state, session) {
      w2 := AppendControl(wire, w1, WindowBody(wire, session));
      EventsGrow(start, window[0]);
      assert base + w2.written == start + [Record(window[0])];
    } else {
      assert EventsIn(base) + window == EventsIn(base);
    }
    var w := Preamble(wire, state, session, turn);
    var e := Event(w.seqNo, TurnBody(wire, turn));
    EventsGrow(base + w2.written, e);
    assert base + w.written == base + w2.written + [Record(e)];
  }

  /** With its header, if it needs one, the file is readable and holds the events it held before. */
  lemma OpenedEvents(wire: Wire, state: ThreadState, turn: TurnContext, base: seq<LineValue>)
    requires Fits(state, base) && state.path.key.thread != ""
    ensures var w0 := Opened(state, turn.turnId);
      var w1 := if state.lineCount == 0 then WriteLine(wire, w0, Header(state.path.key.thread)) else w0;
      var start := base + w1.written;
      start != [] && Parse(start).Ok? && EventsIn(start) == EventsIn(base)
  {
    hide Tracks;
    if state.lineCount == 0 {
      var header := [Header(state.path.key.thread)];
      assert base == [] && base + ([] + header) == header && header[1..] == [];
    } else {
      assert base + [] == base;
    }
  }

  /** The context event that closes a request. */
  function ContextEvent(wire: Wire, w: Writer, drafts: seq<ContentDraft>): Event {
    var p := Process(wire, w, drafts);
    Event(p.w.seqNo + 1, Context(Some(p.refs)))
  }

  /** The context event comes last. */
  lemma ContextComesLast(wire: Wire, w: Writer, base: seq<LineValue>, drafts: seq<ContentDraft>)
    requires InSync(w, base)
    ensures EventsIn(base + AppendRequest(wire, w, drafts).written)
      == EventsIn(base + Process(wire, w, drafts).w.written) + [ContextEvent(wire, w, drafts)]
  {
    hide InSync, Process, EventsIn;
    var p, last := Process(wire, w, drafts), ContextEvent(wire, w, drafts);
    SyncProcess(wire, w, base, drafts);
    SyncIsReadable(p.w, base);
    EventsGrow(base + p.w.written, last);
    assert base + AppendRequest(wire, w, drafts).written == base + p.w.written + [Record(last)];
  }

  /** A request adds content events and its context event. */
  lemma RequestEvents(wire: Wire, w: Writer, base: seq<LineValue>, drafts: seq<ContentDraft>)
    returns (content: seq<Event>)
    requires InSync(w, base)
    ensures EventsIn(base + AppendRequest(wire, w, drafts).written)
      == EventsIn(base + w.written) + (content + [ContextEvent(wire, w, drafts)])
    ensures forall e <- content :: e.body.Content?
  {
    hide InSync, EventsIn, Process, AppendRequest, ContextEvent;
    content := ProcessAddsContent(wire, w, base, drafts);
    ContextComesLast(wire, w, base, drafts);
  }

  /** What a begun turn adds behind its window event: turn, content and context events. */
  function AddedEvents(wire: Wire, w: Writer, turn: TurnContext, drafts: seq<ContentDraft>, content: seq<Event>)
    : seq<Event>
  {
    [Event(w.seqNo, TurnBody(wire, turn))] + (content + [ContextEvent(wire, w, drafts)])
  }

  /** A begun turn adds its window event, if it needs one, and then turn, content and context events. */
  lemma BegunEvents(wire: Wire, state: ThreadState, session: Session, turn: TurnContext, drafts: seq<ContentDraft>,
      base: seq<LineValue>) returns (content: seq<Event>)
    requires Fits(state, base) && state.path.key.thread != ""
    ensures EventsIn(base + Begin(wire, state, session, turn, drafts).written)
      == EventsIn(base) + WindowEvents(wire, state, session)
         + AddedEvents(wire, Preamble(wire, state, session, turn), turn, drafts, content)
    ensures forall e <- content :: e.body.Content?
  {
    hide InSync, EventsIn, Preamble, AppendRequest, ContextEvent, Fits;
    var w := Preamble(wire, state, session, turn);
    SyncPreamble(wire, state, session, turn, base);
    var window := PreambleEvents(wire, state, session, turn, base);
    content := RequestEvents(wire, w, base, drafts);
  }

  /**
   The context of a turn whose `begin` completed is read back, now and after anything written later, as
   exactly the references `begin` computed, when redaction keeps the turn id; otherwise the turn is not
   found under its id, and only what was written later counts.
   */
  lemma ContextOfBegunTurn(
      wire: Wire, state: ThreadState, session: Session, turn: TurnContext, drafts: seq<ContentDraft>,
      base: seq<LineValue>, later: seq<Event>)
    requires Fits(state, base) && state.path.key.thread != ""
    requires forall e <- EventsIn(base) :: !IsTurn(e, turn.turnId)
    ensures var refs := Process(wire, Preamble(wire, state, session, turn), drafts).refs;
      var events := EventsIn(base + Begin(wire, state, session, turn, drafts).written);
      && |refs| == |drafts|
      && ContextRefs(events + later, turn.turnId)
           == if wire.redactText(turn.turnId) == turn.turnId then Some(refs) else ContextRefs(later, turn.turnId)
  {
    hide EventsIn, Preamble, Process, Fits, Begin, NeedsWindow;
    var w := Preamble(wire, state, session, turn);
    SeenCounts(wire, w, drafts, Identity(Usage, None, ""));
    var content := BegunEvents(wire, state, session, turn, drafts, base);
    var before := EventsIn(base) + WindowEvents(wire, state, session);
    var added := AddedEvents(wire, w, turn, drafts, content);
    assert EventsIn(base + Begin(wire, state, session, turn, drafts).written) + later == before + (added + later);
    ContextBehind(before, turn.turnId, added + later);
    if wire.redactText(turn.turnId) == turn.turnId {
      var last := ContextEvent(wire, w, drafts);
      assert (added + later)[1..] == content + ([last] + later);
      ContextBehindContent(content, [last] + later);
    } else {
      ContextBehind(added, turn.turnId, later);
    }
  }

  // ----- resolve_refs -----

  function Find(events: seq<Event>, seqNo: nat): Option<Event> {
    if events == [] then None
    else if events[0].seqNo == seqNo then Some(events[0])
    else Find(events[1..], seqNo)
  }

  /** What is found is the first event with the number. */
  lemma {:induction false} FindMeaning(events: seq<Event>, seqNo: nat, i: nat)
    ensures Find(events, seqNo) == None <==> forall k :: 0 <= k < |events| ==> events[k].seqNo != seqNo
    ensures i < |events| && events[i].seqNo == seqNo && (forall k :: 0 <= k < i ==> events[k].seqNo != seqNo) ==>
      Find(events, seqNo) == Some(events[i])
  {
    if events == [] {
    } else {
      FindMeaning(events[1..], seqNo, if i > 0 then i - 1 else 0);
      assert forall k :: 0 < k < |events| ==> events[k] == events[1..][k - 1];
    }
  }

  /** `resolve_refs`: references that name no event are skipped. */
  function ResolveRefs(events: seq<Event>, refs: seq<nat>): seq<Event> {
    if refs == [] then []
    else
      var found := Find(events, refs[0]);
      (if found.Some? then [found.value] else []) + ResolveRefs(events, refs[1..])
  }

  /** References are resolved one by one, in order, and those that name no event are skipped. */
  lemma {:induction false} ResolveAppend(events: seq<Event>, a: seq<nat>, b: seq<nat>)
    ensures ResolveRefs(events, a + b) == ResolveRefs(events, a) + ResolveRefs(events, b)
    ensures |a| == 1 ==>
      ResolveRefs(events, a) == (if Find(events, a[0]).Some? then [Find(events, a[0]).value] else [])
  {
    if a == [] {
      assert a + b == b;
    } else {
      assert (a + b)[1..] == a[1..] + b;
      ResolveAppend(events, a[1..], b);
    }
  }

  predicate Unrepeated(events: seq<Event>) {
    forall i, j :: 0 <= i < j < |events| ==> events[i].seqNo != events[j].seqNo
  }

  lemma {:induction false} FindIsUnique(events: seq<Event>, i: nat)
    requires i < |events| && Unrepeated(events)
    ensures Find(events, events[i].seqNo) == Some(events[i])
  {
    if i > 0 { FindIsUnique(events[1..], i - 1); }
  }

  /** When numbers are not repeated, references that name events resolve one by one, in order. */
  lemma {:induction false} ResolvedInOrder(events: seq<Event>, refs: seq<nat>, kinds: seq<Kind>)
    requires Unrepeated(events) && |kinds| == |refs|
    requires forall i :: 0 <= i < |refs| ==> Holds(events, refs[i], kinds[i])
    ensures var found := ResolveRefs(events, refs);
      && |found| == |refs|
      && forall i :: 0 <= i < |refs| ==>
           found[i] in events && found[i].seqNo == refs[i] && found[i].body.Content? && found[i].body.kind == kinds[i]
  {
    if refs == [] {
    } else {
      assert Holds(events, refs[0], kinds[0]);
      var k :| 0 <= k < |events| && events[k].seqNo == refs[0] && events[k].body.Content?
        && events[k].body.kind == kinds[0];
      FindIsUnique(events, k);
      ResolvedInOrder(events, refs[1..], kinds[1..]);
      var rest := ResolveRefs(events, refs[1..]);
      assert ResolveRefs(events, refs) == [events[k]] + rest;
      forall i | 0 < i < |refs|
        ensures var f := ResolveRefs(events, refs)[i];
          f in events && f.seqNo == refs[i] && f.body.Content? && f.body.kind == kinds[i]
      {
        assert ResolveRefs(events, refs)[i] == rest[i - 1];
      }
    }
  }
}
