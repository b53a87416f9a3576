/**
 The lines of one turn, spelled out: what `begin`, an appended item and `finish_with` add to the file, and what
 the file says afterwards.
 */
module TurnLines {
  import opened Basics
  import opened Conversation
  import opened ThreadStates
  import opened Reader
  import opened Writers
  import opened Dedup

  /** The file's window is not the session's own: this is when a turn opens a new one. */
  predicate OpensWindow(state: ThreadState, session: Session) {
    state.lineCount == 0 || state.core.window != Some(WindowState(session.windowId, session.generation))
  }

  /** Header and window line, where the turn needs them, and its turn line. */
  function OpeningLines(wire: Wire, state: ThreadState, session: Session, turn: TurnContext): seq<LineValue> {
    var window := WindowState(if session.windowId.Some? then Some(wire.redactText(session.windowId.value)) else None,
      session.generation);
    var opens := if OpensWindow(state, session) then 1 else 0;
    (if state.lineCount == 0 then [Header(state.path.key.thread)] else [])
    + (if opens == 1 then [Record(Event(state.seqNo + 1, Window(Some(window))))] else [])
    + [Record(Event(state.seqNo + opens + 1, Turn(Some(wire.redactText(turn.turnId)), wire.redactJson(turn.details))))]
  }

  lemma OpeningIsWritten(wire: Wire, state: ThreadState, session: Session, turn: TurnContext)
    ensures var w := Preamble(wire, state, session, turn);
      && w.written == OpeningLines(wire, state, session, turn)
      && w.seqNo == state.seqNo + (if OpensWindow(state, session) then 2 else 1)
  {
    hide WriteLine;
    var w0 := Opened(state, turn.turnId);
    var w1 := if state.lineCount == 0 then WriteLine(wire, w0, Header(state.path.key.thread)) else w0;
    OneLine(wire, w0, Header(state.path.key.thread));
    var w2 := w1;
    if OpensWindow(state, session) {
      w2 := AppendControl(wire, w1, WindowBody(wire, session));
      OneControl(wire, w1, WindowBody(wire, session));
    }
    OneControl(wire, w2, TurnBody(wire, turn));
  }

  lemma OneLine(wire: Wire, w: Writer, v: LineValue)
    ensures WriteLine(wire, w, v).written == w.written + [v] && WriteLine(wire, w, v).seqNo == w.seqNo
  {
  }

  lemma OneControl(wire: Wire, w: Writer, body: Body)
    requires !body.Content?
    ensures var w' := AppendControl(wire, w, body);
      && w'.written == w.written + [Record(Event(w.seqNo + 1, body))] && w'.seqNo == w.seqNo + 1
      && w'.status == w.status && w'.finished == w.finished
  {
  }

  /**
   What `begin` writes, line by line: header and window line where needed, the turn line with the redacted id
   and details, the lines of the drafts that were not found, and the context line with all references.
   */
  lemma BegunLines(wire: Wire, state: ThreadState, session: Session, turn: TurnContext, drafts: seq<ContentDraft>)
    returns (which: seq<nat>, content: seq<LineValue>)
    ensures var opening := OpeningLines(wire, state, session, turn);
      var first := state.seqNo + (if OpensWindow(state, session) then 2 else 1) + 1;
      var refs := Process(wire, Preamble(wire, state, session, turn), drafts).refs;
      && Begin(wire, state, session, turn, drafts).written
           == opening + content + [Record(Event(first + |which|, Context(Some(refs))))]
      && |refs| == |drafts| && |content| == |which|
      && (forall k :: 0 < k < |which| ==> which[k - 1] < which[k])
      && (forall k :: 0 <= k < |which| ==> which[k] < |drafts| && refs[which[k]] == first + k)
      && (forall k :: 0 <= k < |which| ==> RecordsDraft(wire, content[k], first + k, drafts[which[k]].body))
  {
    hide Preamble, Process, OpeningLines, RecordsDraft;
    var w := Preamble(wire, state, session, turn);
    OpeningIsWritten(wire, state, session, turn);
    which := LinesOfRequest(wire, w, drafts);
    var p := Process(wire, w, drafts);
    content := p.w.written[|w.written|..];
    assert p.w.written == w.written + content;
    OneControl(wire, p.w, Context(Some(p.refs)));
  }

  /** Behind `begin`, the file's window is the session's own or what redaction makes of it, in its generation. */
  lemma BegunWindow(wire: Wire, state: ThreadState, session: Session, turn: TurnContext, drafts: seq<ContentDraft>,
      base: seq<LineValue>)
    requires Fits(state, base) && state.path.key.thread != ""
    ensures var window := Rebuild(EventsIn(base + Begin(wire, state, session, turn, drafts).written)).window;
      && window.Some? && window.value.generation == session.generation
      && window.value.windowId ==
           if !OpensWindow(state, session) || session.windowId.None? then session.windowId
           else Some(wire.redactText(session.windowId.value))
  {
    hide Process, Parse, Rebuild, Preamble;
    BeginInSync(wire, state, session, turn, drafts, base);
    ProcessLeavesWindow(wire, Preamble(wire, state, session, turn), drafts);
    PreambleWindow(wire, state, session, turn);
  }

  lemma PreambleWindow(wire: Wire, state: ThreadState, session: Session, turn: TurnContext)
    ensures Preamble(wire, state, session, turn).core.window ==
      if OpensWindow(state, session) then WindowBody(wire, session).window else state.core.window
  {
  }

  lemma {:induction false} ProcessLeavesWindow(wire: Wire, w: Writer, drafts: seq<ContentDraft>)
    ensures Process(wire, w, drafts).w.core.window == w.core.window
  {
    if drafts == [] {
    } else {
      ProcessLeavesWindow(wire, w, drafts[..|drafts| - 1]);
    }
  }

  /** What `append_content` writes: one line that stores the item's content and phase, or nothing once finished. */
  lemma AppendedLine(wire: Wire, w: Writer, draft: ContentDraft)
    ensures var (w', seqNo) := AppendContent(wire, w, draft);
      if w.finished then w' == w && seqNo == None
      else
        && |w'.written| == |w.written| + 1 && w'.written[..|w.written|] == w.written
        && seqNo == Some(w.seqNo + 1)
        && RecordsDraft(wire, w'.written[|w.written|], w.seqNo + 1, draft.body)
  {
    hide KindOf, PayloadOf, StableKey, Stores, StoresPhase;
    WrittenStores(wire, w.seqNo + 1, draft.body);
  }

  /**
   What `finish_with` writes: the first call one line, the turn_end with the status and the redacted details it
   was given, which is the summary's status too; any other call nothing.
   */
  lemma FinishedLine(wire: Wire, w: Writer, status: Status, details: string)
    ensures var w' := Finish(wire, w, status, details);
      && w'.finished
      && SummaryOf(wire, w').path == w.path
      && w'.written == w.written
           + (if w.finished then [] else [Record(Event(w.seqNo + 1, TurnEnd(status, wire.redactJson(details))))])
      && SummaryOf(wire, w').status == (if w.finished then w.status else status)
  {
    assert w.written + [] == w.written;
    OneControl(wire, w, TurnEnd(status, wire.redactJson(details)));
  }
}
