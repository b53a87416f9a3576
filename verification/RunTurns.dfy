/**
 The turns of a run, in threads others do not write to: when window lines repeat, what the references of a
 begun turn are, and that they read back the turn's drafts at any later time.
 */
module RunTurns {
  import opened Basics
  import opened Conversation
  import opened ThreadStates
  import opened Reader
  import opened Writers
  import opened Servers
  import opened Numbering
  import opened Tiling
  import opened Dedup
  import opened TurnViews
  import TurnLines
  import QuietReplay
  import Replay
  import RunScanner

  // ----- A turn that a step begins -----

  function StateFor(wire: Wire, limit: nat, s: Server, key: Key): ThreadState
    requires Resolve(wire, limit, s, key).outcome.Ok?
  {
    Resolve(wire, limit, s, key).outcome.value.0
  }

  /** What the thread's file holds when a turn is begun. */
  function BaseFor(wire: Wire, limit: nat, s: Server, key: Key): seq<LineValue>
    requires Resolve(wire, limit, s, key).outcome.Ok?
  {
    Values(wire, TextAt(Resolve(wire, limit, s, key).server.disk, StateFor(wire, limit, s, key).path))
  }

  /** The references `begin` computes for the step's request. */
  function RefsFor(wire: Wire, limit: nat, s: Server, step: Step): seq<nat>
    requires step.BeginStep? && Resolve(wire, limit, s, step.key).outcome.Ok?
  {
    Process(wire, Preamble(wire, StateFor(wire, limit, s, step.key), step.session, step.turn), step.drafts).refs
  }

  /** A begun turn continues a numbered file from a state that fits it, and its lines are all the file gains. */
  lemma StartedTurn(wire: Wire, limit: nat, s: Server, step: Step, key: Key)
    requires wire.Lossless() && ServerInv(wire, NoTrust, s) && RegularThread(wire, s, key, false)
    requires StartsTurn(wire, limit, s, step, key) && OwnStep(step, key)
    ensures var state, base := StateFor(wire, limit, s, key), BaseFor(wire, limit, s, key);
      var disk := Next(wire, limit, s, step).disk;
      && state.path.key == key && key.thread != "" && Fits(state, base) && Numbered(base) && state.path in disk
      && Values(wire, disk[state.path].text) == base + Begin(wire, state, step.session, step.turn, step.drafts).written
  {
    hide ServerInv, RegularThread, Resolve, Begin, Fits, Values, OnlyThread, Reached, Served, InSync, Counted,
      IsWritten;
    ResolveInv(wire, NoTrust, limit, s, key);
    ResolveKeepsRegular(wire, limit, s, key, false);
    var r, state := Resolve(wire, limit, s, key), StateFor(wire, limit, s, key);
    var text := TextAt(r.server.disk, state.path);
    TextIsRegular(wire, r.server, state.path, false);
    var w := Begin(wire, state, step.session, step.turn, step.drafts);
    BeginInSync(wire, state, step.session, step.turn, step.drafts, Values(wire, text));
    WrittenLines(w, Values(wire, text));
    ValuesAppend(wire, text, w.written);
    assert text + "" + Encode(wire, w.written) == text + Encode(wire, w.written);
  }

  lemma WrittenLines(w: Writer, base: seq<LineValue>)
    requires InSync(w, base)
    ensures forall k :: 0 <= k < |w.written| ==> IsWritten(w.written[k])
  {
    hide IsWritten, Parse;
    assert forall k :: 0 <= k < |w.written| ==> w.written[k] in w.written;
  }

  // ----- Repeated windows -----

  /** A repeated window line stays in the file. */
  lemma RepeatStays(wire: Wire, limit: nat, steps: seq<Step>, key: Key, n: nat) returns (path: Path)
    requires wire.Lossless() && (forall step <- steps :: CalmStep(step, key)) && n < |steps|
    requires RepeatingStep(wire, limit, Run(wire, limit, steps[..n]), steps[n], key)
    ensures path in Run(wire, limit, steps).disk && path.key == key
    ensures !NoWindowTwice(EventsIn(Values(wire, Run(wire, limit, steps).disk[path].text)))
  {
    hide ServerInv, RegularThread, Resolve, Begin, Fits, Values, NoWindowTwice, Repeats, Next;
    var s, step := Run(wire, limit, steps[..n]), steps[n];
    CalmIsOwn(steps, key);
    RunIsRegular(wire, limit, steps[..n], key, false);
    StartedTurn(wire, limit, s, step, key);
    var state, base := StateFor(wire, limit, s, key), BaseFor(wire, limit, s, key);
    BegunWindowsIff(wire, state, step.session, step.turn, step.drafts, base);
    BeginWrites(wire, state, step.session, step.turn, step.drafts);
    path := state.path;
    LaterEvents(wire, limit, steps, n, path);
  }

  /** The events a file has after step `n` of a calm run are a prefix of those it has at the end. */
  lemma LaterEvents(wire: Wire, limit: nat, steps: seq<Step>, n: nat, path: Path)
    requires wire.Lossless() && (forall step <- steps :: CalmStep(step, path.key)) && n < |steps|
    requires path in Next(wire, limit, Run(wire, limit, steps[..n]), steps[n]).disk
    requires Values(wire, Next(wire, limit, Run(wire, limit, steps[..n]), steps[n]).disk[path].text) != []
    ensures path in Run(wire, limit, steps).disk
    ensures var some := Values(wire, Next(wire, limit, Run(wire, limit, steps[..n]), steps[n]).disk[path].text);
      var all := Values(wire, Run(wire, limit, steps).disk[path].text);
      && all != [] && Numbered(all)
      && EventsIn(some) <= EventsIn(all)
      && (NoWindowTwice(EventsIn(all)) ==> NoWindowTwice(EventsIn(some)))
  {
    hide ServerInv, Values, NoWindowTwice, Next, Regular;
    assert steps[..n + 1][..n] == steps[..n];
    RunGrows(wire, limit, steps, n + 1, path);
    CalmIsOwn(steps, path.key);
    RunIsRegular(wire, limit, steps, path.key, false);
    var some, all := Run(wire, limit, steps[..n + 1]).disk[path].text, Run(wire, limit, steps).disk[path].text;
    ValuesOfPrefix(wire, all, some);
    PrefixEvents(Values(wire, all), Values(wire, some));
  }

  /**
   In calm runs the window events of a thread's files differ from those before them exactly when no turn of
   the thread was begun whose window line repeats the stored one.
   */
  lemma WindowsDifferIff(wire: Wire, limit: nat, steps: seq<Step>, key: Key)
    requires wire.Lossless() && forall step <- steps :: CalmStep(step, key)
    ensures var disk := Run(wire, limit, steps).disk;
      (forall path <- disk :: path.key == key ==> NoWindowTwice(EventsIn(Values(wire, disk[path].text))))
      <==> NeverRepeats(wire, limit, steps, key)
  {
    hide ServerInv, Regular, Values, NoWindowTwice, RepeatingStep, Run;
    if NeverRepeats(wire, limit, steps, key) {
      CalmIsOwn(steps, key);
      RunIsRegular(wire, limit, steps, key, true);
    } else {
      var n :| 0 <= n < |steps| && RepeatingStep(wire, limit, Run(wire, limit, steps[..n]), steps[n], key);
      var path := RepeatStays(wire, limit, steps, key, n);
    }
  }

  /** A credential-like run in front of `:1` is all that redaction replaces. */
  lemma MaskedWindowId(token: string)
    requires |token| == 43 && forall c <- token :: RunScanner.IsToken(c)
    ensures RunScanner.Redact(token + ":1") == "[REDACTED]:1" != token + ":1"
  {
    var id := token + ":1";
    assert forall k :: 0 <= k < |token| ==> id[k] == token[k] && token[k] in token;
    RunScanner.RunLengthIs(id, |token|);
    assert id[..|token|] == token && id[|token|..] == ":1";
    RunScanner.SkipRun(id);
    RunScanner.SkipGap(":1", 1);
    RunScanner.TokenIsKeptIff("1");
    assert ":1"[1..] == "1" && ":1"[..1] + "1" == ":1";
    assert |"[REDACTED]:1"| == 12 && "[REDACTED]" + ":1" == "[REDACTED]:1";
  }

  /** The state a finished turn leaves fits the file it has written. */
  lemma FinishedFits(w: Writer, base: seq<LineValue>, stamp: Stamp)
    requires InSync(w, base)
    ensures Fits(StateOf(w, stamp), base + w.written)
  {
    hide Parse, Tracks;
  }

  lemma EmptyFits(path: Path)
    ensures Fits(EmptyState(path), [])
  {
    RebuildTracks([]);
  }

  /**
   A thread's first two turns, under two window ids that differ in a credential-like run only: both are stored
   as `[REDACTED]:1`, and the file holds the same window twice.
   */
  lemma MaskedWindowsRepeat(wire: Wire, path: Path, a: string, b: string, turn: TurnContext, status: Status,
      details: string, stamp: Stamp)
    requires (forall s: string :: wire.redactText(s) == RunScanner.Redact(s)) && path.key.thread != ""
    requires |a| == |b| == 43 && forall c <- a + b :: RunScanner.IsToken(c)
    ensures var first :=
      QuietReplay.Done(wire, EmptyState(path), Session(Some(a + ":1"), 1), turn, [], [], status, details);
      var second := Begin(wire, StateOf(first, stamp), Session(Some(b + ":1"), 1), turn, []);
      !NoWindowTwice(EventsIn(first.written + second.written))
  {
    hide Begin, QuietReplay.Done, Fits, NoWindowTwice, RunScanner.Redact, InSync;
    var one, two := Session(Some(a + ":1"), 1), Session(Some(b + ":1"), 1);
    assert forall c <- a :: c in a + b;
    assert forall c <- b :: c in a + b;
    MaskedWindowId(a);
    MaskedWindowId(b);
    FirstTurn(wire, path, one, turn, status, details);
    var first := QuietReplay.Done(wire, EmptyState(path), one, turn, [], [], status, details);
    FinishedFits(first, [], stamp);
    assert [] + first.written == first.written;
    BegunWindowsIff(wire, StateOf(first, stamp), two, turn, [], first.written);
  }

  /** The first turn of a thread, without content, once it is finished. */
  lemma FirstTurn(wire: Wire, path: Path, session: Session, turn: TurnContext, status: Status, details: string)
    requires path.key.thread != ""
    ensures var first := QuietReplay.Done(wire, EmptyState(path), session, turn, [], [], status, details);
      && InSync(first, []) && first.path == path
      && first.core.window == Some(WindowState(RedactOption(wire, session.windowId), session.generation))
  {
    hide Begin, Finish, Fits, InSync, Counted;
    EmptyFits(path);
    var begun := Begin(wire, EmptyState(path), session, turn, []);
    BeginInSync(wire, EmptyState(path), session, turn, [], []);
    FirstWindow(wire, path, session, turn);
    FinishInSync(wire, begun, status, details, []);
    QuietReplay.BegunCore(wire, EmptyState(path), session, turn, []);
    QuietReplay.DoneCore(wire, begun, status, details);
    FinishFields(wire, begun, status, details);
    BeginFields(wire, EmptyState(path), session, turn, []);
  }

  lemma FirstWindow(wire: Wire, path: Path, session: Session, turn: TurnContext)
    ensures Begin(wire, EmptyState(path), session, turn, []).core.window
         == Some(WindowState(RedactOption(wire, session.windowId), session.generation))
  {
  }

  // ----- References of a begun turn -----

  /** Equal id-less drafts of a request get increasing references, in every run in which others do not write. */
  lemma RefsIncrease(wire: Wire, limit: nat, steps: seq<Step>, step: Step, i: nat, j: nat)
    requires wire.Lossless() && step.BeginStep? && forall before <- steps + [step] :: OwnStep(before, step.key)
    requires StartsTurn(wire, limit, Run(wire, limit, steps), step, step.key)
    requires i < j < |step.drafts| && DraftIdentity(wire, step.drafts[i]) == DraftIdentity(wire, step.drafts[j])
    requires IdLess(wire, step.drafts, DraftIdentity(wire, step.drafts[i]))
      && IsContentKind(KindOf(step.drafts[i].body))
    ensures var refs := RefsFor(wire, limit, Run(wire, limit, steps), step);
      |refs| == |step.drafts| && refs[i] < refs[j]
  {
    hide ServerInv, RegularThread, Resolve, Process, Preamble, Values, Run, IdLess, Ordered, InSync, Regular, Fits,
      OwnStep, Begin, Next;
    var s, key := Run(wire, limit, steps), step.key;
    assert (forall before <- steps :: before in steps + [step]) && step in steps + [step];
    RunIsRegular(wire, limit, steps, key, false);
    StartedTurn(wire, limit, s, step, key);
    var state, base := StateFor(wire, limit, s, key), BaseFor(wire, limit, s, key);
    SyncPreamble(wire, state, step.session, step.turn, base);
    RegularPreamble(wire, state, step.session, step.turn, base, false);
    var w := Preamble(wire, state, step.session, step.turn);
    RegularIsOrdered(w, base);
    RefsAreIncreasing(wire, w, step.drafts, i, j);
  }

  /** A file in which others have given two equal events of one window the same number. */
  function RepeatedNumber(thread: string, window: WindowState, body: Body): seq<LineValue> {
    [Header(thread)] + [Record(Event(1, Window(Some(window))))] + [Record(Event(2, body))] + [Record(Event(2, body))]
  }

  lemma RepeatedNumberParses(thread: string, window: WindowState, body: Body)
    requires thread != "" && body.Content? && IsContentKind(body.kind)
    ensures var base := RepeatedNumber(thread, window, body);
      && Parse(base).Ok? && Parse(base).value.lineCount == 4
      && var core := Rebuild(Parse(base).value.events);
         core.window == Some(window) && Refs(core.eventRefs, IdentityOf(body.kind, body.payload)) == [2, 2]
  {
    hide Parse;
    HeaderParses(thread);
    var first, second := Event(1, Window(Some(window))), Event(2, body);
    var v0 := [Header(thread)];
    var v1 := v0 + [Record(first)];
    var v2 := v1 + [Record(second)];
    ParseOneMore(v0, first);
    ParseOneMore(v1, second);
    ParseOneMore(v2, second);
    RebuildSnoc([], first);
    RebuildSnoc([] + [first], second);
    RebuildSnoc([] + [first] + [second], second);
  }

  lemma HeaderParses(thread: string)
    requires thread != ""
    ensures Parse([Header(thread)]) == Ok(Parsed(V1, [], 1, 0))
  {
    assert [Header(thread)][1..] == [];
  }

  /** In such a file two equal drafts of one request get the same reference. */
  lemma RepeatedNumberIsShared(wire: Wire, path: Path, stamp: Stamp, session: Session, turn: TurnContext, json: string)
    requires path.key.thread != ""
    ensures var draft := ContentDraft(None, MessageBody(Request, json));
      var window := WindowState(session.windowId, session.generation);
      var base := RepeatedNumber(path.key.thread, window, Content(Message, PayloadOf(wire, draft.body)));
      && Parse(base).Ok?
      && var state := LoadedState(path, stamp, Parse(base).value);
         && Fits(state, base)
         && Process(wire, Preamble(wire, state, session, turn), [draft, draft]).refs == [2, 2]
  {
    hide Parse, Process, Rebuild, Preamble, Tracks, RepeatedNumber;
    var draft := ContentDraft(None, MessageBody(Request, json));
    var window := WindowState(session.windowId, session.generation);
    var base := RepeatedNumber(path.key.thread, window, Content(Message, PayloadOf(wire, draft.body)));
    RepeatedNumberParses(path.key.thread, window, Content(Message, PayloadOf(wire, draft.body)));
    var state, drafts := LoadedState(path, stamp, Parse(base).value), [draft, draft];
    RebuildTracks(Parse(base).value.events);
    Replay.QuietPreamble(wire, state, session, turn);
    var w, x := Preamble(wire, state, session, turn), DraftIdentity(wire, draft);
    assert drafts[..0] == [] && drafts[..1] == [draft] && drafts[..1][..0] == [];
    assert Occurrence(wire, drafts, 0) == 0 && Occurrence(wire, drafts, 1) == 1;
    Replay.FoundInList(wire, w, drafts, 0);
    Replay.FoundInList(wire, w, drafts, 1);
  }

  lemma NumbersAreUnrepeated(values: seq<LineValue>)
    requires Numbered(values) && values != []
    ensures Unrepeated(EventsIn(values))
  {
    hide Parse;
    NumberedParse(values);
  }

  /** What `RefsAreSound` says of a draft's reference still holds when the file has grown. */
  lemma StillNamed(events: seq<Event>, all: seq<Event>, seqNo: nat, kind: Kind)
    requires events <= all && Holds(events, seqNo, kind)
    ensures Holds(all, seqNo, kind)
  {
    assert all == events + all[|events|..];
    HoldsLater(events, all[|events|..], seqNo, kind);
  }

  // ----- Reading a turn's request back -----

  /**
   The references resolve to one event per draft, in the drafts' order, each of its draft's kind; a draft whose
   key was not known gets an event that stores its content.
   */
  predicate Answers(wire: Wire, events: seq<Event>, refs: seq<nat>, items: map<ItemKey, nat>,
      drafts: seq<ContentDraft>)
  {
    var found := ResolveRefs(events, refs);
    && |refs| == |found| == |drafts|
    && forall i :: 0 <= i < |drafts| ==>
         && found[i] in events && found[i].seqNo == refs[i]
         && found[i].body.Content? && found[i].body.kind == KindOf(drafts[i].body)
         && (!KnownByKey(items, drafts[..i], drafts[i]) ==> Stores(wire, found[i], drafts[i].body))
  }

  /** What an event of an earlier file stores, the event of that number stores at any later time. */
  lemma NamedByNumber(wire: Wire, values: seq<LineValue>, all: seq<Event>, e: Event, body: ContentBody)
    requires StoredInWindow(wire, values, e.seqNo, body) && EventsIn(values) <= all && Unrepeated(all) && e in all
    ensures Stores(wire, e, body)
  {
    hide Parse, Stores;
    var other :| other in CurrentWindow(values) && other.seqNo == e.seqNo && Stores(wire, other, body);
    var k :| 0 <= k < |CurrentWindow(values)| && CurrentWindow(values)[k] == other;
    var i := WindowStart(EventsIn(values)) + k;
    assert EventsIn(values)[i] == other && all[i] == other;
    var j :| 0 <= j < |all| && all[j] == e;
  }

  /** What one pass computes resolves in any numbered file that grew from the one it left. */
  lemma PassAnswers(wire: Wire, w: Writer, drafts: seq<ContentDraft>, base: seq<LineValue>, all: seq<Event>)
    requires InSync(w, base) && Unrepeated(all) && EventsIn(base + Process(wire, w, drafts).w.written) <= all
    ensures Answers(wire, all, Process(wire, w, drafts).refs, w.core.itemRefs, drafts)
  {
    hide InSync, Process, EventsIn, Unrepeated, Holds, StoredInWindow, KnownByKey, Stores;
    var p, kinds := Process(wire, w, drafts), seq(|drafts|, i requires 0 <= i < |drafts| => KindOf(drafts[i].body));
    var values := base + p.w.written;
    SeenCounts(wire, w, drafts, Identity(Usage, None, ""));
    forall i | 0 <= i < |drafts|
      ensures Holds(all, p.refs[i], kinds[i])
      ensures !KnownByKey(w.core.itemRefs, drafts[..i], drafts[i]) ==>
        StoredInWindow(wire, values, p.refs[i], drafts[i].body)
    {
      RefsAreSound(wire, w, drafts, base, i);
      StillNamed(EventsIn(values), all, p.refs[i], kinds[i]);
    }
    ResolvedInOrder(all, p.refs, kinds);
    var found := ResolveRefs(all, p.refs);
    forall i | 0 <= i < |drafts| && !KnownByKey(w.core.itemRefs, drafts[..i], drafts[i])
      ensures Stores(wire, found[i], drafts[i].body)
    {
      NamedByNumber(wire, values, all, found[i], drafts[i].body);
    }
  }

  lemma PreambleKeepsItems(wire: Wire, state: ThreadState, session: Session, turn: TurnContext)
    ensures Preamble(wire, state, session, turn).core.itemRefs == state.core.itemRefs
  {
  }

  /**
   A begun turn can be read back at any later time of a calm run: its references resolve, in the thread's file
   as it then is, to one event per draft of its request, in order and of its kind, which stores the draft's
   content unless its key was known before; and they are the ones the context line yields when redaction keeps
   the turn's id and no earlier turn of the file had it.
   */
  lemma TurnReadsBack(wire: Wire, limit: nat, steps: seq<Step>, n: nat)
    requires wire.Lossless() && n < |steps| && steps[n].BeginStep?
    requires forall step <- steps :: CalmStep(step, steps[n].key)
    requires StartsTurn(wire, limit, Run(wire, limit, steps[..n]), steps[n], steps[n].key)
    ensures var s, step := Run(wire, limit, steps[..n]), steps[n];
      var path, refs := StateFor(wire, limit, s, step.key).path, RefsFor(wire, limit, s, step);
      var events := EventsIn(Values(wire, TextAt(Run(wire, limit, steps).disk, path)));
      && Answers(wire, events, refs, StateFor(wire, limit, s, step.key).core.itemRefs, step.drafts)
      && (wire.redactText(step.turn.turnId) == step.turn.turnId
          && (forall e <- EventsIn(BaseFor(wire, limit, s, step.key)) :: !IsTurn(e, step.turn.turnId)) ==>
           ContextRefs(events, step.turn.turnId) == Some(refs))
  {
    hide ServerInv, RegularThread, Resolve, Process, Preamble, Values, Fits, InSync, Next, EventsIn, Answers, IsTurn,
      ContextRefs, NoWindowTwice, AppendRequest, CalmStep, Run;
    var s, step, key := Run(wire, limit, steps[..n]), steps[n], steps[n].key;
    CalmIsOwn(steps, key);
    RunIsRegular(wire, limit, steps[..n], key, false);
    StartedTurn(wire, limit, s, step, key);
    var state, base := StateFor(wire, limit, s, key), BaseFor(wire, limit, s, key);
    var w := Preamble(wire, state, step.session, step.turn);
    var done := Begin(wire, state, step.session, step.turn, step.drafts);
    BeginWrites(wire, state, step.session, step.turn, step.drafts);
    LaterEvents(wire, limit, steps, n, state.path);
    var all := Values(wire, TextAt(Run(wire, limit, steps).disk, state.path));
    NumbersAreUnrepeated(all);
    SyncPreamble(wire, state, step.session, step.turn, base);
    ContextComesLast(wire, w, base, step.drafts);
    PreambleKeepsItems(wire, state, step.session, step.turn);
    PassAnswers(wire, w, step.drafts, base, EventsIn(all));
    if forall e <- EventsIn(base) :: !IsTurn(e, step.turn.turnId) {
      var later := EventsIn(all)[|EventsIn(base + done.written)|..];
      ContextOfBegunTurn(wire, state, step.session, step.turn, step.drafts, base, later);
      assert EventsIn(base + done.written) + later == EventsIn(all);
    }
  }

  // ----- The slice of a finished turn -----

  /** Turns that have ended stay in the list. */
  lemma {:induction false} EndedGrows(wire: Wire, limit: nat, steps: seq<Step>, n: nat, path: Path)
    requires n <= |steps|
    ensures Ended(wire, limit, steps[..n], path) <= Ended(wire, limit, steps, path)
  {
    if n == |steps| {
      assert steps[..n] == steps;
    } else {
      hide EndedBy;
      assert steps[..|steps| - 1][..n] == steps[..n];
      EndedGrows(wire, limit, steps[..|steps| - 1], n, path);
    }
  }

  /**
   The summary `finish_with` returns reads the turn back at any later time of a calm run: the slice has the
   summary's event count, size and text, and its last event is a turn_end with the status given, which is the
   summary's, and the redacted details.
   */
  lemma FinishedTurnReads(wire: Wire, limit: nat, steps: seq<Step>, n: nat)
    requires wire.Lossless() && n < |steps| && steps[n].FinishStep?
    requires forall step <- steps :: CalmStep(step, steps[n].key)
    requires steps[n].key in Run(wire, limit, steps[..n]).turns
    ensures var step, w := steps[n], Run(wire, limit, steps[..n]).turns[steps[n].key].w;
      var summary := SummaryOf(wire, Finish(wire, w, step.status, step.details));
      var r := ReadSlice(wire, TextAt(Run(wire, limit, steps).disk, summary.path), summary.startLine, summary.endLine);
      && summary.status == step.status
      && r.Ok? && r.value.events != [] && |r.value.events| == r.value.eventCount == summary.eventCount
      && r.value.byteSize == summary.byteSize && r.value.contents == summary.contents
      && r.value.events[|r.value.events| - 1].body == TurnEnd(step.status, wire.redactJson(step.details))
  {
    hide ServerInv, RegularThread, Run, Finish, ReadSlice, CalmStep, Counted, InSync, OpenTurnOk, Ended;
    var s, step := Run(wire, limit, steps[..n]), steps[n];
    var w, w' := s.turns[step.key].w, Finish(wire, s.turns[step.key].w, step.status, step.details);
    CalmIsOwn(steps, step.key);
    RunIsRegular(wire, limit, steps[..n], step.key, false);
    OpenTurn(wire, s, step.key);
    TurnLines.FinishedLine(wire, w, step.status, step.details);
    FinishFields(wire, w, step.status, step.details);
    EndsWith(w.written, Event(w.seqNo + 1, TurnEnd(step.status, wire.redactJson(step.details))));
    JustEnded(wire, limit, steps, n);
    EndedGrows(wire, limit, steps, n + 1, w.path);
    var i := |Ended(wire, limit, steps[..n + 1], w.path)| - 1;
    SliceAtAnyTime(wire, limit, steps, w.path, i);
    SliceHasEvents(wire, TextAt(Run(wire, limit, steps).disk, w.path), w');
  }

  lemma OpenTurn(wire: Wire, s: Server, key: Key)
    requires ServerInv(wire, NoTrust, s) && key in s.turns
    ensures s.turns[key].w.path.key == key && !s.turns[key].w.finished
  {
    hide InSync, Counted, Reached, Encode;
    assert ThreadInv(wire, NoTrust, s, key);
  }

  lemma JustEnded(wire: Wire, limit: nat, steps: seq<Step>, n: nat)
    requires n < |steps| && steps[n].FinishStep? && steps[n].key in Run(wire, limit, steps[..n]).turns
    ensures var w := Run(wire, limit, steps[..n]).turns[steps[n].key].w;
      var ended := Ended(wire, limit, steps[..n + 1], w.path);
      ended != [] && ended[|ended| - 1] == Finish(wire, w, steps[n].status, steps[n].details)
  {
    hide Finish, Run;
    assert steps[..n + 1][..n] == steps[..n];
  }

  lemma EndsWith(values: seq<LineValue>, e: Event)
    ensures var all := EventsOf(values + [Record(e)]);
      all.Some? ==> all.value != [] && all.value[|all.value| - 1] == e
  {
    assert (values + [Record(e)])[..|values|] == values;
  }

  lemma SliceHasEvents(wire: Wire, text: string, w: Writer)
    requires ReadsBack(wire, text, w)
    ensures EventsOf(w.written).Some?
    ensures var r := ReadSlice(wire, text, w.startLine, w.endLine);
      r.Ok? && r.value == Slice(EventsOf(w.written).value, w.eventCount, w.byteSize, SummaryOf(wire, w).contents)
      && |r.value.events| == r.value.eventCount
  {
  }
}
