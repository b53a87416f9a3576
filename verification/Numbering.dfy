/**
 Numbering and crash recovery: in runs where others do not write to a thread, its files, wherever a crash
 has cut them, hold a header followed by events numbered 1, 2, 3, ..., and two window events in a row differ
 as long as no turn is begun whose window line repeats the stored one.
 */
module Numbering {
  import opened Basics
  import opened Text
  import opened Conversation
  import opened ThreadStates
  import opened Reader
  import opened Writers
  import opened Servers
  import Dedup
  import LruCache
  import TurnViews
  import opened ThreadIndexFile

  ghost predicate Numbered(values: seq<LineValue>) {
    values != [] ==>
      && values[0].Header? && values[0].threadId != ""
      && forall i :: 1 <= i < |values| ==> values[i].Record? && values[i].event.seqNo == i
  }

  /** Two window events with no other between them carry different windows. */
  predicate NoWindowTwice(events: seq<Event>) {
    forall i, j :: 0 <= i < j < |events| && events[i].body.Window? && events[j].body.Window?
        && (forall k :: i < k < j ==> !events[k].body.Window?)
        ==> events[i].body.window != events[j].body.window
  }

  lemma {:induction false} NumberedEvents(values: seq<LineValue>, n: nat)
    requires Numbered(values) && 1 <= n <= |values|
    ensures EventsOf(values[1..n]).Some?
    ensures var events := EventsOf(values[1..n]).value;
      |events| == n - 1 && MaxSeq(events) == n - 1
      && forall k :: 0 <= k < n - 1 ==> events[k] == values[k + 1].event
  {
    if n > 1 {
      NumberedEvents(values, n - 1);
      assert values[1..n][..n - 2] == values[1..n - 1];
      var init := EventsOf(values[1..n - 1]).value;
      assert (init + [values[n - 1].event])[..n - 2] == init;
    }
  }

  /** A numbered file parses: the k-th event has number k, and there is one more line than events. */
  lemma NumberedParse(values: seq<LineValue>)
    requires Numbered(values) && values != []
    ensures Parse(values).Ok?
    ensures var p := Parse(values).value;
      && p.format == V1 && p.lineCount == |values| && p.lastSeq == |values| - 1 && |p.events| == |values| - 1
      && forall k :: 0 <= k < |p.events| ==> p.events[k] == values[k + 1].event && p.events[k].seqNo == k + 1
  {
    NumberedEvents(values, |values|);
    assert values[1..|values|] == values[1..];
  }

  // ----- Window events in a row -----

  lemma {:induction false} WindowAfter(events: seq<Event>, i: nat, j: nat)
    requires i < j <= |events| && events[i].body.Window?
    requires forall k :: i < k < j ==> !events[k].body.Window?
    ensures Rebuild(events[..j]).window == events[i].body.window
  {
    assert events[..j][..j - 1] == events[..j - 1];
    if i < j - 1 { WindowAfter(events, i, j - 1); }
  }

  /** A rebuilt window is that of the last window event. */
  lemma {:induction false} LastWindow(events: seq<Event>) returns (i: nat)
    requires Rebuild(events).window.Some?
    ensures i < |events| && events[i].body.Window? && events[i].body.window == Rebuild(events).window
    ensures forall k :: i < k < |events| ==> !events[k].body.Window?
  {
    var n := |events| - 1;
    if events[n].body.Window? {
      i := n;
    } else {
      i := LastWindow(events[..n]);
      assert forall k :: 0 <= k < n ==> events[..n][k] == events[k];
    }
  }

  /** One more event keeps the windows apart exactly when it does not repeat the rebuilt window. */
  lemma WindowSnoc(events: seq<Event>, e: Event)
    requires e.body.Window? ==> e.body.window.Some?
    ensures NoWindowTwice(events + [e]) <==>
      NoWindowTwice(events) && (e.body.Window? ==> e.body.window != Rebuild(events).window)
  {
    hide Rebuild;
    var all, n := events + [e], |events|;
    assert all[..n] == events && events[..n] == events && forall k :: 0 <= k < n ==> all[k] == events[k];
    if NoWindowTwice(events) && (e.body.Window? ==> e.body.window != Rebuild(events).window) {
      forall i, j | 0 <= i < j < |all| && all[i].body.Window? && all[j].body.Window?
          && (forall k :: i < k < j ==> !all[k].body.Window?)
        ensures all[i].body.window != all[j].body.window
      {
        if j == n { WindowAfter(events, i, n); }
      }
    }
    if NoWindowTwice(all) {
      EarlierWindows(all, events);
      if e.body.Window? && e.body.window == Rebuild(events).window { RepeatedWindow(events, e); }
    }
  }

  lemma RepeatedWindow(events: seq<Event>, e: Event)
    requires e.body.Window? && e.body.window.Some? && e.body.window == Rebuild(events).window
    ensures !NoWindowTwice(events + [e])
  {
    hide Rebuild;
    var all, n := events + [e], |events|;
    var i := LastWindow(events);
    assert all[i] == events[i] && all[n] == e && forall k :: 0 <= k < n ==> all[k] == events[k];
  }

  lemma EarlierWindows(all: seq<Event>, some: seq<Event>)
    requires some <= all && NoWindowTwice(all)
    ensures NoWindowTwice(some)
  {
    assert forall k :: 0 <= k < |some| ==> some[k] == all[k];
  }

  /** Other events leave the windows as they are. */
  lemma {:induction false} OtherEvents(events: seq<Event>, more: seq<Event>)
    requires forall e <- more :: !e.body.Window?
    ensures NoWindowTwice(events + more) <==> NoWindowTwice(events)
  {
    hide NoWindowTwice;
    if more == [] {
      assert events + more == events;
    } else {
      var init, last := more[..|more| - 1], more[|more| - 1];
      OtherEvents(events, init);
      WindowSnoc(events + init, last);
      assert events + more == events + init + [last];
    }
  }

  /**
   The window line of this turn repeats the stored one: the file's current window is what redaction makes of
   the session's, and not the session's own, so the turn writes it again.
   */
  predicate Repeats(wire: Wire, state: ThreadState, session: Session) {
    var stored := RedactOption(wire, session.windowId);
    state.core.window == Some(WindowState(stored, session.generation)) && stored != session.windowId
  }

  /** One turn keeps the file's window events apart exactly when its window line does not repeat the stored one. */
  lemma BegunWindowsIff(wire: Wire, state: ThreadState, session: Session, turn: TurnContext,
      drafts: seq<ContentDraft>, base: seq<LineValue>)
    requires Fits(state, base) && state.path.key.thread != ""
    ensures NoWindowTwice(Dedup.EventsIn(base + Begin(wire, state, session, turn, drafts).written)) <==>
      NoWindowTwice(Dedup.EventsIn(base)) && !Repeats(wire, state, session)
  {
    hide Begin, Fits, Parse, NoWindowTwice, Rebuild, Preamble, Process;
    var events, window := Dedup.EventsIn(base), TurnViews.WindowEvents(wire, state, session);
    var content := TurnViews.BegunEvents(wire, state, session, turn, drafts, base);
    var rest := TurnViews.AddedEvents(wire, Preamble(wire, state, session, turn), turn, drafts, content);
    TrackedWindow(state, base);
    HeaderOnly("t");
    OtherEvents(events + window, rest);
    if window == [] {
      assert events + window == events;
    } else {
      WindowSnoc(events, window[0]);
      assert events + window == events + [window[0]];
    }
  }

  // ----- One turn -----

  /**
   The file with the turn's lines is numbered and the writer's counter is in place; `stable` asks that windows
   differ as well.
   */
  ghost predicate Regular(w: Writer, base: seq<LineValue>, stable: bool) {
    var values := base + w.written;
    && values != [] && Numbered(values) && w.seqNo == |values| - 1
    && (stable ==> NoWindowTwice(Dedup.EventsIn(values)))
  }

  lemma RegularEvent(wire: Wire, w: Writer, base: seq<LineValue>, w': Writer, body: Body, stable: bool)
    requires Regular(w, base, stable)
    requires w'.written == w.written + [Record(Event(w.seqNo + 1, body))] && w'.seqNo == w.seqNo + 1
    requires body.Window? ==> body.window.Some?
    requires stable && body.Window? ==> body.window != Rebuild(Dedup.EventsIn(base + w.written)).window
    ensures Regular(w', base, stable)
  {
    hide Parse, Rebuild, NoWindowTwice;
    var values, e := base + w.written, Event(w.seqNo + 1, body);
    assert base + w'.written == values + [Record(e)];
    NumberedParse(values);
    ParseOneMore(values, e);
    WindowSnoc(Dedup.EventsIn(values), e);
  }

  lemma {:induction false} RegularProcess(wire: Wire, w: Writer, base: seq<LineValue>, drafts: seq<ContentDraft>,
      stable: bool)
    requires Regular(w, base, stable)
    ensures Regular(Process(wire, w, drafts).w, base, stable)
  {
    if drafts == [] {
    } else {
      hide Regular, ProcessOne;
      var init, last := drafts[..|drafts| - 1], drafts[|drafts| - 1];
      RegularProcess(wire, w, base, init, stable);
      RegularOne(wire, Process(wire, w, init), base, last, stable);
    }
  }

  lemma RegularOne(wire: Wire, p: Pass, base: seq<LineValue>, draft: ContentDraft, stable: bool)
    requires Regular(p.w, base, stable)
    ensures Regular(ProcessOne(wire, p, draft).w, base, stable)
  {
    hide Regular, Existing, DraftIdentity, StableKey, PayloadOf, KindOf;
    var q := ProcessOne(wire, p, draft);
    if Existing(wire, p.w.core, p.seen, draft).None? {
      RegularEvent(wire, p.w, base, q.w, Content(KindOf(draft.body), PayloadOf(wire, draft.body)), stable);
    } else {
      SameWritten(p.w, q.w, base, stable);
    }
  }

  lemma SameWritten(w: Writer, w': Writer, base: seq<LineValue>, stable: bool)
    requires Regular(w, base, stable) && w'.written == w.written && w'.seqNo == w.seqNo
    ensures Regular(w', base, stable)
  {
  }

  lemma RegularPreamble(wire: Wire, state: ThreadState, session: Session, turn: TurnContext, base: seq<LineValue>,
      stable: bool)
    requires Fits(state, base) && state.path.key.thread != ""
    requires Numbered(base) && (stable ==> NoWindowTwice(Dedup.EventsIn(base)) && !Repeats(wire, state, session))
    ensures Regular(Preamble(wire, state, session, turn), base, stable)
  {
    hide NoWindowTwice, Tracks, Rebuild;
    var w0 := Opened(state, turn.turnId);
    var w1 := if state.lineCount == 0 then WriteLine(wire, w0, Header(state.path.key.thread)) else w0;
    if state.lineCount == 0 {
      HeaderOnly(state.path.key.thread);
      assert base + w1.written == [Header(state.path.key.thread)];
    } else {
      NumberedParse(base);
      assert base + w1.written == base;
    }
    assert Regular(w1, base, stable);
    TrackedWindow(state, base);
    var w2 := w1;
    if state.lineCount == 0 || NeedsWindow(state, session) {
      w2 := AppendControl(wire, w1, WindowBody(wire, session));
      assert Dedup.EventsIn(base + w1.written) == Dedup.EventsIn(base);
      RegularEvent(wire, w1, base, w2, WindowBody(wire, session), stable);
    }
    RegularEvent(wire, w2, base, Preamble(wire, state, session, turn), TurnBody(wire, turn), stable);
  }

  lemma HeaderOnly(thread: string)
    requires thread != ""
    ensures Numbered([Header(thread)]) && Dedup.EventsIn([Header(thread)]) == [] && Dedup.EventsIn([]) == []
    ensures NoWindowTwice([]) && Rebuild([]).window == None
  {
    assert [Header(thread)][1..] == [];
  }

  lemma TrackedWindow(state: ThreadState, base: seq<LineValue>)
    requires Fits(state, base)
    ensures state.core.window == Rebuild(Dedup.EventsIn(base)).window
    ensures base == [] <==> state.lineCount == 0
  {
  }

  lemma RegularBegin(wire: Wire, state: ThreadState, session: Session, turn: TurnContext,
      drafts: seq<ContentDraft>, base: seq<LineValue>, stable: bool)
    requires Fits(state, base) && state.path.key.thread != ""
    requires Numbered(base) && (stable ==> NoWindowTwice(Dedup.EventsIn(base)) && !Repeats(wire, state, session))
    ensures Regular(Begin(wire, state, session, turn, drafts), base, stable)
  {
    hide Regular, Preamble, Process;
    RegularPreamble(wire, state, session, turn, base, stable);
    var w := Preamble(wire, state, session, turn);
    RegularProcess(wire, w, base, drafts, stable);
    var p := Process(wire, w, drafts);
    RegularEvent(wire, p.w, base, Begin(wire, state, session, turn, drafts), Context(Some(p.refs)), stable);
  }

  /** Where numbers run from 1, the listed ones increase. */
  lemma RegularIsOrdered(w: Writer, base: seq<LineValue>)
    requires InSync(w, base) && Regular(w, base, false)
    ensures Dedup.Ordered(w)
  {
    hide Parse, Rebuild, Dedup.CurrentWindow;
    var values := base + w.written;
    var events := Dedup.EventsIn(values);
    NumberedParse(values);
    ListsHoldContent(w, events);
    forall x <- w.core.eventRefs
      ensures Dedup.Increasing(w.core.eventRefs[x]) && forall s <- w.core.eventRefs[x] :: s <= w.seqNo
    {
      RebuildRefsAreWindowSeqs(events, x);
      SeqsIncrease(events[WindowStart(events)..], x, w.seqNo);
    }
  }

  lemma ListsHoldContent(w: Writer, events: seq<Event>)
    requires w.core.eventRefs == Rebuild(events).eventRefs
    ensures forall x <- w.core.eventRefs :: IsContentKind(x.kind)
  {
    RebuildListsContentOnly(events);
  }

  lemma {:induction false} SeqsIncrease(events: seq<Event>, x: Identity, last: nat)
    requires forall k, m :: 0 <= k < m < |events| ==> events[k].seqNo < events[m].seqNo
    requires forall k :: 0 <= k < |events| ==> events[k].seqNo <= last
    ensures Dedup.Increasing(SeqsOf(events, x)) && forall s <- SeqsOf(events, x) :: s <= last
  {
    if events == [] {
    } else {
      var n := |events| - 1;
      SeqsIncrease(events[..n], x, if n == 0 then 0 else events[n - 1].seqNo);
      var before := SeqsOf(events[..n], x);
      assert forall k :: 0 <= k < |before| ==> before[k] in before;
    }
  }

  // ----- Whole runs -----

  /** Others do not write to this thread's files. */
  predicate OwnStep(step: Step, key: Key) {
    match step
    case BeginStep(k, _, _, _, intruder) => k == key ==> intruder == ""
    case FinishStep(k, _, _, intruder) => k == key ==> intruder == ""
    case OutsideStep(path, _) => path.key != key
    case _ => true
  }

  /** The step begins a turn of this thread. */
  predicate StartsTurn(wire: Wire, limit: nat, s: Server, step: Step, key: Key) {
    && step.BeginStep? && step.key == key && key !in s.turns
    && SafeSegment(key.identity) && SafeSegment(key.thread)
    && Resolve(wire, limit, s, key).outcome.Ok?
  }

  /** The step begins a turn of this thread whose window line repeats the stored one. */
  predicate RepeatingStep(wire: Wire, limit: nat, s: Server, step: Step, key: Key) {
    StartsTurn(wire, limit, s, step, key) && Repeats(wire, Resolve(wire, limit, s, key).outcome.value.0, step.session)
  }

  /** No step of the run is such a step. */
  predicate NeverRepeats(wire: Wire, limit: nat, steps: seq<Step>, key: Key) {
    forall n :: 0 <= n < |steps| ==> !RepeatingStep(wire, limit, Run(wire, limit, steps[..n]), steps[n], key)
  }

  ghost predicate RegularText(wire: Wire, text: string, stable: bool) {
    Numbered(Values(wire, text)) && (stable ==> NoWindowTwice(Dedup.EventsIn(Values(wire, text))))
  }

  /** The thread's files are regular, and its open turn's file is what the turn found and what it wrote. */
  ghost predicate RegularThread(wire: Wire, s: Server, key: Key, stable: bool) {
    && (forall path <- s.disk :: path.key == key ==> RegularText(wire, s.disk[path].text, stable))
    && (key in s.turns ==>
         var turn := s.turns[key];
         && Regular(turn.w, Values(wire, turn.base), stable)
         && TextAt(s.disk, turn.w.path) == turn.base + Encode(wire, turn.w.written))
  }

  /** A prefix of a regular file is regular: this is what makes any cut harmless. */
  lemma RegularPrefix(wire: Wire, text: string, cut: string, stable: bool)
    requires RegularText(wire, text, stable) && cut <= text
    ensures RegularText(wire, cut, stable)
  {
    hide Values;
    ValuesOfPrefix(wire, text, cut);
    var all, some := Values(wire, text), Values(wire, cut);
    if some == [] {
      HeaderOnly("t");
    } else {
      PrefixEvents(all, some);
    }
  }

  lemma PrefixEvents(all: seq<LineValue>, some: seq<LineValue>)
    requires some != [] && some <= all && Numbered(all)
    ensures Numbered(some)
    ensures Dedup.EventsIn(some) <= Dedup.EventsIn(all)
    ensures NoWindowTwice(Dedup.EventsIn(all)) ==> NoWindowTwice(Dedup.EventsIn(some))
  {
    hide Parse, NoWindowTwice;
    assert forall i :: 0 <= i < |some| ==> some[i] == all[i];
    NumberedParse(all);
    NumberedParse(some);
    if NoWindowTwice(Dedup.EventsIn(all)) { EarlierWindows(Dedup.EventsIn(all), Dedup.EventsIn(some)); }
  }

  /** Text written by a regular turn behind a complete base is a regular file. */
  lemma RegularWritten(wire: Wire, w: Writer, base: string, stable: bool)
    requires wire.Lossless() && Complete(base) && Regular(w, Values(wire, base), stable)
    requires forall v <- w.written :: IsWritten(v)
    ensures RegularText(wire, base + Encode(wire, w.written), stable)
  {
    hide Values, NoWindowTwice;
    assert forall k :: 0 <= k < |w.written| ==> w.written[k] in w.written;
    ValuesAppend(wire, base, w.written);
  }

  /** Files and turn of one thread, as another thread's step leaves them. */
  ghost predicate SameThread(s: Server, s': Server, key: Key) {
    && (forall path: Path :: path.key == key ==> (path in s.disk <==> path in s'.disk))
    && (forall path <- s.disk :: path.key == key ==> s'.disk[path] == s.disk[path])
    && (key in s.turns <==> key in s'.turns) && (key in s.turns ==> s'.turns[key] == s.turns[key])
  }

  lemma SameIsRegular(wire: Wire, s: Server, s': Server, key: Key, stable: bool)
    requires ServerInv(wire, NoTrust, s) && RegularThread(wire, s, key, stable) && SameThread(s, s', key)
    ensures RegularThread(wire, s', key, stable)
  {
    hide ServerInv, Regular, RegularText;
    if key in s.turns { TurnPath(wire, s, key); }
  }

  lemma TurnPath(wire: Wire, s: Server, key: Key)
    requires ServerInv(wire, NoTrust, s) && key in s.turns
    ensures s.turns[key].w.path.key == key && s.turns[key].w.path in s.disk
  {
    assert ThreadInv(wire, NoTrust, s, key);
  }

  /** Finishing changes the file of its turn only, and ends that turn. */
  lemma FinishedDisk(wire: Wire, limit: nat, s: Server, step: Step)
    requires step.FinishStep?
    ensures step.key !in s.turns ==> DoFinish(wire, limit, s, step) == s
    ensures step.key in s.turns ==>
      var turn, s' := s.turns[step.key], DoFinish(wire, limit, s, step);
      var w := Finish(wire, turn.w, step.status, step.details);
      var text := TextAt(s.disk, turn.w.path) + NewLines(wire, turn.w, w) + step.intruder;
      && s'.disk == Store(s, turn.w.path, text).disk && s'.turns == s.turns - {step.key}
      && w.path == turn.w.path
  {
    hide Finish, SaveIndex, NewLines;
    if step.key in s.turns {
      var turn := s.turns[step.key];
      var w := Finish(wire, turn.w, step.status, step.details);
      FinishFields(wire, turn.w, step.status, step.details);
      var text := TextAt(s.disk, w.path) + NewLines(wire, turn.w, w) + step.intruder;
      var s1 := Store(s, w.path, text).(turns := s.turns - {step.key});
      var state := StateOf(w, StampOf(s1.disk[w.path]));
      SavingKeepsDisk(s1.(cache := LruCache.Insert(s1.cache, limit, step.key, state)), step.key, state);
    }
  }

  /** A step of another thread leaves this thread's files and turn alone. */
  lemma OtherStep(wire: Wire, limit: nat, s: Server, step: Step, key: Key)
    requires ServerInv(wire, NoTrust, s) && OwnStep(step, key)
    requires match step
      case BeginStep(k, _, _, _, _) => k != key
      case AppendStep(k, _) => k != key
      case FinishStep(k, _, _, _) => k != key
      case DropStep(k) => k != key
      case CrashStep(_, _) => false
      case _ => true
    ensures SameThread(s, Next(wire, limit, s, step), key)
  {
    hide ServerInv, Resolve, Resolved, Begin, DoFinish, AppendContent, NewLines, Encode, Later;
    match step
    case BeginStep(k, _, _, _, _) =>
      if k !in s.turns {
        ResolveInv(wire, NoTrust, limit, s, k);
        var r := Resolve(wire, limit, s, k);
        if r.outcome.Ok? { ResolvedKey(wire, NoTrust, r.server, k, r.outcome.value.0); BeginPath(wire, r, step); }
      }
    case AppendStep(k, draft) =>
      if k in s.turns {
        TurnPath(wire, s, k);
        AppendPath(wire, s.turns[k].w, draft);
      }
    case FinishStep(k, status, details, intruder) =>
      if k in s.turns { TurnPath(wire, s, k); }
      FinishedDisk(wire, limit, s, step);
    case _ =>
  }

  lemma BeginPath(wire: Wire, r: Resolution, step: Step)
    requires r.outcome.Ok? && step.BeginStep?
    ensures Begin(wire, r.outcome.value.0, step.session, step.turn, step.drafts).path == r.outcome.value.0.path
  {
    BeginFields(wire, r.outcome.value.0, step.session, step.turn, step.drafts);
  }

  lemma AppendPath(wire: Wire, w: Writer, draft: ContentDraft)
    ensures AppendContent(wire, w, draft).0.path == w.path
  {
    WriteContentFields(wire, w, draft);
  }

  /** Resolving changes at most one file, by repairing its tail. */
  lemma ResolveDisk(wire: Wire, limit: nat, s: Server, key: Key)
    ensures var s' := Resolve(wire, limit, s, key).server;
      s'.disk == s.disk
      || exists path :: path in s.disk && path.key == key && s'.disk == RepairFile(s.disk, path, s.clock + 1)
  {
    hide LoadThread, LoadIndex, Matches;
    LoadDisk(wire, limit, s.(cache := LruCache.Touch(s.cache, key)), key);
  }

  lemma LoadDisk(wire: Wire, limit: nat, s: Server, key: Key)
    ensures var s' := LoadThread(wire, limit, s, key).server;
      s'.disk == s.disk
      || exists path :: path in s.disk && path.key == key && s'.disk == RepairFile(s.disk, path, s.clock + 1)
  {
    hide Choose, Candidates, RepairFile, SaveIndex, Rebuild, LruCache.Insert;
    var c := Choose(Candidates(wire, s.disk, key));
    if c.Use? && Path(key, c.segment) in s.disk {
      var disk := RepairFile(s.disk, Path(key, c.segment), s.clock + 1);
      var state := LoadedState(Path(key, c.segment), StampOf(disk[Path(key, c.segment)]), c.parsed);
      var cache := LruCache.Insert(s.cache, limit, key, state);
      SavingKeepsDisk(s.(disk := disk, clock := s.clock + 1, cache := cache), key, state);
    }
  }

  lemma ResolveKeepsRegular(wire: Wire, limit: nat, s: Server, key: Key, stable: bool)
    requires RegularThread(wire, s, key, stable) && key !in s.turns && ServerInv(wire, NoTrust, s)
    ensures RegularThread(wire, Resolve(wire, limit, s, key).server, key, stable)
  {
    hide ServerInv, Regular, Resolve, Resolved, OnlyThread, Values;
    var s' := Resolve(wire, limit, s, key).server;
    ResolveInv(wire, NoTrust, limit, s, key);
    ResolveDisk(wire, limit, s, key);
    if s'.disk != s.disk {
      var path :| path in s.disk && path.key == key && s'.disk == RepairFile(s.disk, path, s.clock + 1);
      ValuesOfRepaired(wire, s.disk[path].text);
    }
  }

  /** A turn's lines written to its file: the thread's files stay regular. */
  lemma WriteKeepsRegular(wire: Wire, s: Server, turn: OpenTurn, keep: Option<OpenTurn>, stable: bool)
    requires wire.Lossless() && RegularThread(wire, s, turn.w.path.key, stable) && Complete(turn.base)
    requires Regular(turn.w, Values(wire, turn.base), stable) && forall v <- turn.w.written :: IsWritten(v)
    requires keep.Some? ==> keep.value == turn
    ensures var key := turn.w.path.key;
      var text := turn.base + Encode(wire, turn.w.written);
      RegularThread(wire, SetTurn(Store(s, turn.w.path, text), key, keep), key, stable)
  {
    hide RegularText, Regular;
    RegularWritten(wire, turn.w, turn.base, stable);
  }

  lemma BeginKeepsRegular(wire: Wire, limit: nat, s: Server, step: Step, stable: bool)
    requires wire.Lossless() && ServerInv(wire, NoTrust, s) && step.BeginStep? && OwnStep(step, step.key)
    requires RegularThread(wire, s, step.key, stable) && (stable ==> !RepeatingStep(wire, limit, s, step, step.key))
    ensures RegularThread(wire, DoBegin(wire, limit, s, step), step.key, stable)
  {
    hide RegularThread, ServerInv, Resolve, Begin, Fits, Regular, OnlyThread, InSync, Values, Reached, Served;
    if step.key !in s.turns && SafeSegment(step.key.identity) && SafeSegment(step.key.thread) {
      ResolveInv(wire, NoTrust, limit, s, step.key);
      ResolveKeepsRegular(wire, limit, s, step.key, stable);
      var r := Resolve(wire, limit, s, step.key);
      if r.outcome.Ok? {
        var state := r.outcome.value.0;
        var base := TextAt(r.server.disk, state.path);
        var w := Begin(wire, state, step.session, step.turn, step.drafts);
        BeginInSync(wire, state, step.session, step.turn, step.drafts, Values(wire, base));
        BeginFields(wire, state, step.session, step.turn, step.drafts);
        TextIsRegular(wire, r.server, state.path, stable);
        RegularBegin(wire, state, step.session, step.turn, step.drafts, Values(wire, base), stable);
        assert base + step.intruder + Encode(wire, w.written) == base + Encode(wire, w.written);
        WriteKeepsRegular(wire, r.server, OpenTurn(w, base), Some(OpenTurn(w, base)), stable);
      }
    }
  }

  lemma TextIsRegular(wire: Wire, s: Server, path: Path, stable: bool)
    requires RegularThread(wire, s, path.key, stable)
    ensures RegularText(wire, TextAt(s.disk, path), stable)
  {
    HeaderOnly("t");
    NothingRead(wire);
  }

  lemma AppendKeepsRegular(wire: Wire, s: Server, step: Step, stable: bool)
    requires wire.Lossless() && ServerInv(wire, NoTrust, s) && step.AppendStep?
    requires RegularThread(wire, s, step.key, stable)
    ensures RegularThread(wire, DoAppend(wire, s, step), step.key, stable)
  {
    hide Values, InSync, Regular, RegularText, Reached, Served, Encode;
    if step.key in s.turns {
      assert ThreadInv(wire, NoTrust, s, step.key);
      var turn := s.turns[step.key];
      var w := AppendContent(wire, turn.w, step.draft).0;
      var body := Content(KindOf(step.draft.body), PayloadOf(wire, step.draft.body));
      AppendInSync(wire, turn.w, step.draft, Values(wire, turn.base));
      RegularEvent(wire, turn.w, Values(wire, turn.base), w, body, stable);
      OwnLines(wire, turn.w, w, turn.base);
      WriteKeepsRegular(wire, s, turn.(w := w), Some(turn.(w := w)), stable);
    }
  }

  lemma OwnLines(wire: Wire, w: Writer, w': Writer, base: string)
    requires w.written <= w'.written
    ensures base + Encode(wire, w.written) + NewLines(wire, w, w') == base + Encode(wire, w'.written)
  {
    hide Encode;
    var more := w'.written[|w.written|..];
    EncodeAppend(wire, w.written, more);
    assert w'.written == w.written + more;
    assert base + Encode(wire, w.written) + Encode(wire, more) == base + (Encode(wire, w.written) + Encode(wire, more));
  }

  lemma FinishKeepsRegular(wire: Wire, limit: nat, s: Server, step: Step, stable: bool)
    requires wire.Lossless() && ServerInv(wire, NoTrust, s) && step.FinishStep? && OwnStep(step, step.key)
    requires RegularThread(wire, s, step.key, stable)
    ensures RegularThread(wire, DoFinish(wire, limit, s, step), step.key, stable)
  {
    hide Values, InSync, Regular, RegularText, Reached, Served, Encode, DoFinish;
    FinishedDisk(wire, limit, s, step);
    if step.key in s.turns {
      assert ThreadInv(wire, NoTrust, s, step.key);
      var turn := s.turns[step.key];
      var w := Finish(wire, turn.w, step.status, step.details);
      FinishInSync(wire, turn.w, step.status, step.details, Values(wire, turn.base));
      RegularEvent(wire, turn.w, Values(wire, turn.base), w, TurnEnd(step.status, wire.redactJson(step.details)),
        stable);
      OwnLines(wire, turn.w, w, turn.base);
      var text := turn.base + Encode(wire, w.written);
      assert TextAt(s.disk, w.path) + NewLines(wire, turn.w, w) + step.intruder == text;
      WriteKeepsRegular(wire, s, turn.(w := w), None, stable);
    }
  }

  lemma StepKeepsRegular(wire: Wire, limit: nat, s: Server, step: Step, key: Key, stable: bool)
    requires wire.Lossless() && ServerInv(wire, NoTrust, s) && RegularThread(wire, s, key, stable)
    requires OwnStep(step, key) && (stable ==> !RepeatingStep(wire, limit, s, step, key))
    ensures RegularThread(wire, Next(wire, limit, s, step), key, stable)
  {
    hide ServerInv, RegularText, Regular, DoBegin, DoAppend, DoFinish, DoOutside, RepeatingStep;
    if step.CrashStep? {
      var s' := DoCrash(s, step);
      forall path <- s'.disk | path.key == key ensures RegularText(wire, s'.disk[path].text, stable) {
        RegularPrefix(wire, s.disk[path].text, s'.disk[path].text, stable);
      }
    } else if step.BeginStep? && step.key == key {
      BeginKeepsRegular(wire, limit, s, step, stable);
    } else if step.AppendStep? && step.key == key {
      AppendKeepsRegular(wire, s, step, stable);
    } else if step.FinishStep? && step.key == key {
      FinishKeepsRegular(wire, limit, s, step, stable);
    } else if !(step.DropStep? && step.key == key) {
      OtherStep(wire, limit, s, step, key);
      SameIsRegular(wire, s, Next(wire, limit, s, step), key, stable);
    }
  }

  lemma {:induction false} RunIsRegular(wire: Wire, limit: nat, steps: seq<Step>, key: Key, stable: bool)
    requires wire.Lossless() && forall step <- steps :: OwnStep(step, key)
    requires stable ==> NeverRepeats(wire, limit, steps, key)
    ensures ServerInv(wire, NoTrust, Run(wire, limit, steps))
      && RegularThread(wire, Run(wire, limit, steps), key, stable)
  {
    RunInv(wire, NoTrust, limit, steps);
    if steps == [] {
    } else {
      hide ServerInv, RegularThread, RepeatingStep;
      var init := steps[..|steps| - 1];
      assert forall n :: 0 <= n < |init| ==> init[..n] == steps[..n] && init[n] == steps[n];
      RunInv(wire, NoTrust, limit, init);
      RunIsRegular(wire, limit, init, key, stable);
      StepKeepsRegular(wire, limit, Run(wire, limit, init), steps[|steps| - 1], key, stable);
    }
  }

  /**
   Numbering survives crashes: after any run in which others do not write to the thread, and whatever the
   crashes have cut off, the complete lines of its files are a header and events numbered from 1, so there
   is one line more than the last number. When no turn of the thread repeated the stored window, a window
   event also differs from the window event before it.
   */
  lemma NumberingSurvives(wire: Wire, limit: nat, steps: seq<Step>, path: Path)
    requires wire.Lossless() && forall step <- steps :: OwnStep(step, path.key)
    requires path in Run(wire, limit, steps).disk
    ensures var text := Run(wire, limit, steps).disk[path].text;
      var values := Values(wire, text);
      && Parse(values).Ok?
      && var p := Parse(values).value;
         && (forall k :: 0 <= k < |p.events| ==> p.events[k].seqNo == k + 1)
         && (p.lineCount != 0 ==> p.format == V1 && p.lineCount == p.lastSeq + 1 && |p.events| == p.lastSeq)
         && (NeverRepeats(wire, limit, steps, path.key) ==> NoWindowTwice(p.events))
  {
    hide ServerInv, Parse, Rebuild, Values, Run, NeverRepeats, OwnStep, NoWindowTwice;
    var stable := NeverRepeats(wire, limit, steps, path.key);
    RunIsRegular(wire, limit, steps, path.key, stable);
    var values := Values(wire, Run(wire, limit, steps).disk[path].text);
    NothingRead(wire);
    if values != [] { NumberedParse(values); }
  }

  /**
   In such runs the persisted index is a faithful copy: a state the cache would serve is loaded back from the
   index that is written for it, unchanged.
   */
  lemma ReachableIndexRoundTrip(wire: Wire, limit: nat, steps: seq<Step>, key: Key, state: ThreadState)
    requires wire.Lossless() && forall step <- steps :: OwnStep(step, key)
    requires var s := Run(wire, limit, steps);
      (key, state) in s.cache && Matches(s.disk, state) && state.lineCount != 0 && s.clock < NanosLimit
    ensures var s := Run(wire, limit, steps);
      WriteIndex(s.disk, key, state).Some?
        && LoadIndex(s.disk, key, WriteIndex(s.disk, key, state).value) == Some(state)
  {
    hide Parse, Values, GivenUpBefore, Candidates, Tracks, RegularThread;
    var s, t := Run(wire, limit, steps), Trust({key}, {});
    CachedDescribes(wire, limit, steps, key, state);
    RunIsRegular(wire, limit, steps, key, false);
    TextIsRegular(wire, s, state.path, false);
    var values := Values(wire, s.disk[state.path].text);
    NothingRead(wire);
    NumberedParse(values);
    var events := Parse(values).value.events;
    assert forall e <- events :: e.seqNo >= 1;
    LastIsMax(values);
    TrackedRefsAreValid(state, events);
    assert ClockAhead(s);
    IndexRoundTrip(s.disk, key, state);
  }

  /** A cached state that still matches describes the file the slow form would choose. */
  lemma CachedDescribes(wire: Wire, limit: nat, steps: seq<Step>, key: Key, state: ThreadState)
    requires wire.Lossless() && forall step <- steps :: OwnStep(step, key)
    requires (key, state) in Run(wire, limit, steps).cache && Matches(Run(wire, limit, steps).disk, state)
    ensures state.path.key == key && Describes(wire, Trust({key}, {}), Run(wire, limit, steps).disk, state)
    ensures ClockAhead(Run(wire, limit, steps))
  {
    hide Describes, OpenTurnOk, Run, SegmentInUse, LoadIndex;
    var s, t := Run(wire, limit, steps), Trust({key}, {});
    assert forall n :: 0 <= n < |steps| ==> steps[n] in steps;
    RunInv(wire, t, limit, steps);
    assert ThreadInv(wire, t, s, key);
    assert Served(s, key, state);
  }

  lemma LastIsMax(values: seq<LineValue>)
    requires Parse(values).Ok?
    ensures Parse(values).value.lastSeq == MaxSeq(Parse(values).value.events)
  {
  }
}
