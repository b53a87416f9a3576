/**
 Turn slices tile the file: in runs in which others do not write to a thread and no crash cuts its files,
 the turns that ended, in order, cover each of its files line by line, and the range in a turn's summary
 reads back that turn's events.
 */
module Tiling {
  import opened Basics
  import opened Text
  import opened Conversation
  import opened ThreadStates
  import opened Reader
  import opened Writers
  import opened Servers
  import opened Numbering
  import Dedup

  /** Others do not write to this thread's files, and no crash cuts them. */
  predicate CalmStep(step: Step, key: Key) {
    OwnStep(step, key) && (step.CrashStep? ==> key !in step.cuts)
  }

  /** The turns on this file that ended during the run, in the order they ended. */
  function Ended(wire: Wire, limit: nat, steps: seq<Step>, path: Path): seq<Writer> {
    if steps == [] then []
    else
      var before := steps[..|steps| - 1];
      Ended(wire, limit, before, path) + EndedBy(wire, Run(wire, limit, before), steps[|steps| - 1], path)
  }

  function EndedBy(wire: Wire, s: Server, step: Step, path: Path): seq<Writer> {
    match step
    case FinishStep(key, status, details, _) =>
      if key in s.turns && s.turns[key].w.path == path then [Finish(wire, s.turns[key].w, status, details)] else []
    case DropStep(key) =>
      if key in s.turns && s.turns[key].w.path == path then [s.turns[key].w] else []
    case CrashStep(_, _) =>
      if path.key in s.turns && s.turns[path.key].w.path == path then [s.turns[path.key].w] else []
    case _ => []
  }

  /** The text written by these turns, one after the other. */
  function Joined(wire: Wire, ws: seq<Writer>): string {
    if ws == [] then "" else Joined(wire, ws[..|ws| - 1]) + Encode(wire, ws[|ws| - 1].written)
  }

  lemma {:induction false} JoinedComplete(wire: Wire, ws: seq<Writer>)
    ensures Complete(Joined(wire, ws))
  {
    if ws == [] {
    } else {
      JoinedComplete(wire, ws[..|ws| - 1]);
      EncodeAppend(wire, ws[|ws| - 1].written, []);
      CompleteAppend(Joined(wire, ws[..|ws| - 1]), Encode(wire, ws[|ws| - 1].written));
    }
  }

  lemma {:induction false} JoinedAppend(wire: Wire, a: seq<Writer>, b: seq<Writer>)
    ensures Joined(wire, a + b) == Joined(wire, a) + Joined(wire, b)
  {
    if b == [] {
      assert a + b == a;
    } else {
      assert (a + b)[..|a + b| - 1] == a + b[..|b| - 1];
      JoinedAppend(wire, a, b[..|b| - 1]);
    }
  }

  function OpenOn(s: Server, path: Path): Option<OpenTurn> {
    if path.key in s.turns && s.turns[path.key].w.path == path then Some(s.turns[path.key]) else None
  }

  /** Each turn's counters were exact against the text of the turns before it. */
  ghost predicate AllCounted(wire: Wire, ended: seq<Writer>) {
    forall i :: 0 <= i < |ended| ==>
      ended[i].written != [] && Counted(wire, ended[i], Values(wire, Joined(wire, ended[..i])))
  }

  /** The file is the text of its ended turns, followed by the text of its open turn if it has one. */
  ghost predicate Tiled(wire: Wire, s: Server, path: Path, ended: seq<Writer>) {
    && AllCounted(wire, ended)
    && match OpenOn(s, path)
       case Some(turn) => turn.base == Joined(wire, ended) && turn.w.written != []
       case None => TextAt(s.disk, path) == Joined(wire, ended)
  }

  lemma AllCountedSnoc(wire: Wire, ended: seq<Writer>, w: Writer)
    requires AllCounted(wire, ended) && w.written != [] && Counted(wire, w, Values(wire, Joined(wire, ended)))
    ensures AllCounted(wire, ended + [w])
  {
    hide Counted, Values, Joined;
    forall i | 0 <= i < |ended| + 1
      ensures (ended + [w])[i].written != []
        && Counted(wire, (ended + [w])[i], Values(wire, Joined(wire, (ended + [w])[..i])))
    {
      assert (ended + [w])[..i] == ended[..i];
      assert ended[..|ended|] == ended;
    }
  }

  /** In calm runs every file is complete between steps. */
  lemma TiledIsComplete(wire: Wire, s: Server, path: Path, ended: seq<Writer>)
    requires Tiled(wire, s, path, ended) && RegularThread(wire, s, path.key, false) && ServerInv(wire, NoTrust, s)
    ensures Complete(TextAt(s.disk, path))
  {
    hide ServerInv, AllCounted, Joined, Regular, RegularText, Encode;
    JoinedComplete(wire, ended);
    if OpenOn(s, path).Some? {
      var turn := OpenOn(s, path).value;
      EncodeAppend(wire, turn.w.written, []);
      CompleteAppend(turn.base, Encode(wire, turn.w.written));
    }
  }

  /** One step: what it ends is appended to the list, and the file keeps being tiled. */
  lemma TiledStep(wire: Wire, limit: nat, s: Server, step: Step, path: Path, ended: seq<Writer>)
    requires wire.Lossless() && ServerInv(wire, NoTrust, s) && RegularThread(wire, s, path.key, false)
    requires CalmStep(step, path.key) && Tiled(wire, s, path, ended)
    requires forall p <- s.disk :: p.key == path.key ==> Complete(s.disk[p].text)
    ensures Tiled(wire, Next(wire, limit, s, step), path, ended + EndedBy(wire, s, step, path))
  {
    hide ServerInv, RegularThread, Tiled, DoBegin, DoAppend, DoFinish, DoOutside, DoCrash;
    assert ended + [] == ended;
    if step.CrashStep? {
      TiledCrash(wire, s, step, path, ended);
    } else if step.BeginStep? && step.key == path.key {
      TiledBegin(wire, limit, s, step, path, ended);
    } else if step.AppendStep? && step.key == path.key {
      TiledAppend(wire, s, step, path, ended);
    } else if step.FinishStep? && step.key == path.key {
      TiledFinish(wire, limit, s, step, path, ended);
    } else if step.DropStep? && step.key == path.key {
      TiledDrop(wire, s, step.key, path, ended);
    } else {
      OtherStep(wire, limit, s, step, path.key);
      OtherEndsNothing(wire, s, step, path);
      SameIsTiled(wire, s, Next(wire, limit, s, step), path, ended);
    }
  }

  lemma OtherEndsNothing(wire: Wire, s: Server, step: Step, path: Path)
    requires ServerInv(wire, NoTrust, s) && !step.CrashStep?
    requires step.FinishStep? || step.DropStep? ==> step.key != path.key
    ensures EndedBy(wire, s, step, path) == []
  {
    hide ServerInv;
    if (step.FinishStep? || step.DropStep?) && step.key in s.turns { TurnPath(wire, s, step.key); }
  }

  lemma SameIsTiled(wire: Wire, s: Server, s': Server, path: Path, ended: seq<Writer>)
    requires Tiled(wire, s, path, ended) && SameThread(s, s', path.key)
    ensures Tiled(wire, s', path, ended)
  {
    hide AllCounted, Joined;
  }

  lemma TiledCrash(wire: Wire, s: Server, step: Step, path: Path, ended: seq<Writer>)
    requires ServerInv(wire, NoTrust, s) && RegularThread(wire, s, path.key, false) && Tiled(wire, s, path, ended)
    requires step.CrashStep? && path.key !in step.cuts
    ensures Tiled(wire, DoCrash(s, step), path, ended + EndedBy(wire, s, step, path))
  {
    hide ServerInv, RegularThread, Tiled;
    TiledDrop(wire, s, path.key, path, ended);
    DroppedThenCrashed(wire, s, step, path, ended + EndedBy(wire, s, step, path));
  }

  lemma DroppedThenCrashed(wire: Wire, s: Server, step: Step, path: Path, ended: seq<Writer>)
    requires Tiled(wire, s.(turns := s.turns - {path.key}), path, ended)
    requires step.CrashStep? && path.key !in step.cuts
    ensures Tiled(wire, DoCrash(s, step), path, ended)
  {
    hide AllCounted, Joined;
  }

  lemma TiledDrop(wire: Wire, s: Server, key: Key, path: Path, ended: seq<Writer>)
    requires ServerInv(wire, NoTrust, s) && RegularThread(wire, s, path.key, false) && Tiled(wire, s, path, ended)
    ensures Tiled(wire, s.(turns := s.turns - {key}), path, ended + EndedBy(wire, s, DropStep(key), path))
  {
    hide Values, InSync, Regular, RegularText, Encode, Counted, AllCounted, Served, Reached;
    assert ended + [] == ended;
    if key in s.turns {
      assert ThreadInv(wire, NoTrust, s, key);
      if s.turns[key].w.path == path {
        var w := s.turns[key].w;
        AllCountedSnoc(wire, ended, w);
        assert (ended + [w])[..|ended|] == ended;
        assert Joined(wire, ended + [w]) == Joined(wire, ended) + Encode(wire, w.written);
      }
    }
  }

  lemma TiledAppend(wire: Wire, s: Server, step: Step, path: Path, ended: seq<Writer>)
    requires wire.Lossless() && ServerInv(wire, NoTrust, s) && RegularThread(wire, s, path.key, false)
    requires step.AppendStep? && step.key == path.key && CalmStep(step, path.key) && Tiled(wire, s, path, ended)
    ensures Tiled(wire, DoAppend(wire, s, step), path, ended)
  {
    hide Values, InSync, Regular, RegularText, Encode, Counted, AllCounted, Served, Reached, Joined;
    if step.key in s.turns {
      assert ThreadInv(wire, NoTrust, s, step.key);
      WriteContentFields(wire, s.turns[step.key].w, step.draft);
    }
  }

  lemma TiledFinish(wire: Wire, limit: nat, s: Server, step: Step, path: Path, ended: seq<Writer>)
    requires wire.Lossless() && ServerInv(wire, NoTrust, s) && RegularThread(wire, s, path.key, false)
    requires step.FinishStep? && step.key == path.key && CalmStep(step, path.key) && Tiled(wire, s, path, ended)
    ensures Tiled(wire, DoFinish(wire, limit, s, step), path, ended + EndedBy(wire, s, step, path))
  {
    hide Values, InSync, Regular, RegularText, Encode, Counted, AllCounted, Served, Reached, DoFinish, Finish;
    assert ended + [] == ended;
    FinishedDisk(wire, limit, s, step);
    if step.key in s.turns {
      assert ThreadInv(wire, NoTrust, s, step.key);
      var turn := s.turns[step.key];
      var w := Finish(wire, turn.w, step.status, step.details);
      FinishInSync(wire, turn.w, step.status, step.details, Values(wire, turn.base));
      FinishFields(wire, turn.w, step.status, step.details);
      OwnLines(wire, turn.w, w, turn.base);
      assert TextAt(s.disk, w.path) + NewLines(wire, turn.w, w) + step.intruder == turn.base + Encode(wire, w.written);
      if w.path == path {
        AllCountedSnoc(wire, ended, w);
        assert (ended + [w])[..|ended|] == ended;
        assert Joined(wire, ended + [w]) == Joined(wire, ended) + Encode(wire, w.written);
      }
    }
  }

  lemma ResolveLeavesDisk(wire: Wire, limit: nat, s: Server, key: Key)
    requires forall p <- s.disk :: p.key == key ==> Complete(s.disk[p].text)
    ensures Resolve(wire, limit, s, key).server.disk == s.disk
  {
    hide Resolve;
    ResolveDisk(wire, limit, s, key);
  }

  lemma TiledBegin(wire: Wire, limit: nat, s: Server, step: Step, path: Path, ended: seq<Writer>)
    requires wire.Lossless() && ServerInv(wire, NoTrust, s) && RegularThread(wire, s, path.key, false)
    requires step.BeginStep? && CalmStep(step, path.key) && Tiled(wire, s, path, ended)
    requires step.key == path.key && forall p <- s.disk :: p.key == path.key ==> Complete(s.disk[p].text)
    ensures Tiled(wire, DoBegin(wire, limit, s, step), path, ended)
  {
    hide ServerInv, Values, InSync, RegularThread, Encode, Counted, AllCounted, Served, Reached, Joined,
        Resolve, Begin, Fits, Resolved, OnlyThread;
    if step.key !in s.turns && SafeSegment(step.key.identity) && SafeSegment(step.key.thread) {
      ResolveInv(wire, NoTrust, limit, s, step.key);
      ResolveLeavesDisk(wire, limit, s, step.key);
      var r := Resolve(wire, limit, s, step.key);
      if r.outcome.Ok? {
        var state := r.outcome.value.0;
        BeginFields(wire, state, step.session, step.turn, step.drafts);
        BeginWrites(wire, state, step.session, step.turn, step.drafts);
        ResolvedKey(wire, NoTrust, r.server, step.key, state);
      }
    }
  }

  lemma BeginWrites(wire: Wire, state: ThreadState, session: Session, turn: TurnContext, drafts: seq<ContentDraft>)
    ensures Begin(wire, state, session, turn, drafts).written != []
  {
    hide Process, Preamble;
  }

  lemma {:induction false} RunIsTiled(wire: Wire, limit: nat, steps: seq<Step>, path: Path)
    requires wire.Lossless() && forall step <- steps :: CalmStep(step, path.key)
    ensures Tiled(wire, Run(wire, limit, steps), path, Ended(wire, limit, steps, path))
  {
    if steps == [] {
    } else {
      hide ServerInv, RegularThread, Tiled, Next;
      var before := steps[..|steps| - 1];
      var s := Run(wire, limit, before);
      assert forall step <- before :: CalmStep(step, path.key) && OwnStep(step, path.key);
      RunIsRegular(wire, limit, before, path.key, false);
      RunIsTiled(wire, limit, before, path);
      forall p <- s.disk | p.key == path.key ensures Complete(s.disk[p].text) {
        RunIsTiled(wire, limit, before, p);
        TiledIsComplete(wire, s, p, Ended(wire, limit, before, p));
      }
      TiledStep(wire, limit, s, steps[|steps| - 1], path, Ended(wire, limit, before, path));
    }
  }

  // ----- Files only grow -----

  lemma FilesAreComplete(wire: Wire, limit: nat, steps: seq<Step>, key: Key)
    requires wire.Lossless() && forall step <- steps :: CalmStep(step, key)
    ensures forall p <- Run(wire, limit, steps).disk :: p.key == key ==> Complete(Run(wire, limit, steps).disk[p].text)
  {
    hide ServerInv, RegularThread, Tiled, Run, Complete;
    var s := Run(wire, limit, steps);
    RunIsRegular(wire, limit, steps, key, false);
    forall p <- s.disk | p.key == key ensures Complete(s.disk[p].text) {
      RunIsTiled(wire, limit, steps, p);
      TiledIsComplete(wire, s, p, Ended(wire, limit, steps, p));
    }
  }

  /** A calm step leaves what is in the thread's files in place. */
  lemma StepGrows(wire: Wire, limit: nat, s: Server, step: Step, path: Path)
    requires wire.Lossless() && ServerInv(wire, NoTrust, s) && RegularThread(wire, s, path.key, false)
    requires CalmStep(step, path.key) && forall p <- s.disk :: p.key == path.key ==> Complete(s.disk[p].text)
    ensures TextAt(s.disk, path) <= TextAt(Next(wire, limit, s, step).disk, path)
    ensures path in s.disk ==> path in Next(wire, limit, s, step).disk
  {
    hide ServerInv, RegularThread, Resolve, Begin, Finish, DoFinish, AppendContent, NewLines, Complete, OnlyThread;
    if step.BeginStep? && step.key == path.key {
      if step.key !in s.turns { ResolveLeavesDisk(wire, limit, s, step.key); }
    } else if step.FinishStep? && step.key == path.key {
      FinishedDisk(wire, limit, s, step);
    } else if step.AppendStep? && step.key == path.key {
    } else if step.CrashStep? {
    } else if !(step.DropStep? && step.key == path.key) {
      OtherStep(wire, limit, s, step, path.key);
    }
  }

  /** What a file holds in the middle of a calm run, it holds at the end. */
  lemma {:induction false} RunGrows(wire: Wire, limit: nat, steps: seq<Step>, n: nat, path: Path)
    requires wire.Lossless() && n <= |steps| && forall step <- steps :: CalmStep(step, path.key)
    ensures TextAt(Run(wire, limit, steps[..n]).disk, path) <= TextAt(Run(wire, limit, steps).disk, path)
    ensures path in Run(wire, limit, steps[..n]).disk ==> path in Run(wire, limit, steps).disk
  {
    if n == |steps| {
      assert steps[..n] == steps;
    } else {
      hide ServerInv, RegularThread, Next, CalmStep, Complete;
      var before := steps[..|steps| - 1];
      assert before[..n] == steps[..n];
      RunGrows(wire, limit, before, n, path);
      FilesAreComplete(wire, limit, before, path.key);
      CalmIsOwn(before, path.key);
      RunIsRegular(wire, limit, before, path.key, false);
      StepGrows(wire, limit, Run(wire, limit, before), steps[|steps| - 1], path);
    }
  }

  lemma CalmIsOwn(steps: seq<Step>, key: Key)
    requires forall step <- steps :: CalmStep(step, key)
    ensures forall step <- steps :: OwnStep(step, key)
  {
  }

  // ----- What the tiling means for readers -----

  /** The text behind turn `i`. */
  lemma TextAround(wire: Wire, ended: seq<Writer>, i: nat, open: string)
    requires i < |ended|
    ensures Joined(wire, ended) + open ==
      Joined(wire, ended[..i]) + Encode(wire, ended[i].written) + (Joined(wire, ended[i + 1..]) + open)
  {
    JoinedAppend(wire, ended[..i + 1], ended[i + 1..]);
    assert ended[..i + 1] + ended[i + 1..] == ended;
    assert ended[..i + 1][..i] == ended[..i];
  }

  /** The range in the turn's summary reads back the turn from this text. */
  predicate ReadsBack(wire: Wire, text: string, w: Writer) {
    && EventsOf(w.written).Some?
    && ReadSlice(wire, text, w.startLine, w.endLine)
         == Ok(Slice(EventsOf(w.written).value, w.eventCount, w.byteSize, SummaryOf(wire, w).contents))
  }

  /** What `Counted` says about one ended turn, with its lines known to be written ones. */
  lemma CountedTurn(wire: Wire, ended: seq<Writer>, i: nat)
    requires AllCounted(wire, ended) && i < |ended|
    ensures Counted(wire, ended[i], Values(wire, Joined(wire, ended[..i]))) && ended[i].written != []
    ensures forall k :: 0 <= k < |ended[i].written| ==> IsWritten(ended[i].written[k])
  {
    hide Values, Encode, Joined, EventsOf, IsWritten;
    var w := ended[i];
    assert forall k :: 0 <= k < |w.written| ==> w.written[k] in w.written;
  }

  lemma WrittenReadsBack(wire: Wire, w: Writer, before: string, after: string)
    requires wire.Lossless() && Complete(before) && Complete(after)
    requires Counted(wire, w, Values(wire, before)) && w.written != []
    requires forall k :: 0 <= k < |w.written| ==> IsWritten(w.written[k])
    ensures ReadsBack(wire, before + Encode(wire, w.written) + after, w)
  {
    LinesOfComplete(wire, before);
    SliceOfWritten(wire, before, w.written, after);
    hide Values, Encode, ReadSlice, EventsOf, IsWritten, Lines, Complete;
  }

  /** The range in the summary of an ended turn reads back that turn, whatever was written later. */
  lemma SliceOfTurn(wire: Wire, ended: seq<Writer>, i: nat, open: string)
    requires wire.Lossless() && AllCounted(wire, ended) && Complete(open) && i < |ended|
    ensures ReadsBack(wire, Joined(wire, ended) + open, ended[i])
  {
    hide Values, Encode, Joined, ReadsBack, Counted, AllCounted, IsWritten, Complete;
    var w, before, after := ended[i], Joined(wire, ended[..i]), Joined(wire, ended[i + 1..]) + open;
    JoinedComplete(wire, ended[..i]);
    JoinedComplete(wire, ended[i + 1..]);
    CompleteAppend(Joined(wire, ended[i + 1..]), open);
    TextAround(wire, ended, i, open);
    CountedTurn(wire, ended, i);
    WrittenReadsBack(wire, w, before, after);
  }

  lemma LinesOfComplete(wire: Wire, text: string)
    requires Complete(text)
    ensures |Values(wire, text)| == |Lines(text)|
  {
    RepairIdempotent(text);
  }

  /** The next turn starts on the line behind the previous one; the first starts on line 1. */
  lemma RangesAdjoin(wire: Wire, ended: seq<Writer>, i: nat)
    requires wire.Lossless() && AllCounted(wire, ended) && i < |ended|
    ensures ended[i].startLine == if i == 0 then 1 else ended[i - 1].endLine + 1
    ensures |Values(wire, Joined(wire, ended[..i + 1]))| == ended[i].endLine
  {
    hide Values, Encode;
    JoinedComplete(wire, ended[..i]);
    var w := ended[i];
    assert ended[..i + 1][..i] == ended[..i];
    assert Counted(wire, w, Values(wire, Joined(wire, ended[..i])));
    assert forall k :: 0 <= k < |w.written| ==> w.written[k] in w.written;
    ValuesAppend(wire, Joined(wire, ended[..i]), w.written);
    if i == 0 {
      NothingRead(wire);
    } else {
      var v := ended[i - 1];
      assert ended[..i][..i - 1] == ended[..i - 1];
      JoinedComplete(wire, ended[..i - 1]);
      assert Counted(wire, v, Values(wire, Joined(wire, ended[..i - 1])));
      assert forall k :: 0 <= k < |v.written| ==> v.written[k] in v.written;
      ValuesAppend(wire, Joined(wire, ended[..i - 1]), v.written);
    }
  }

  function TurnEvents(w: Writer): seq<Event> {
    if EventsOf(w.written).Some? then EventsOf(w.written).value else []
  }

  function AllEvents(ws: seq<Writer>): seq<Event> {
    if ws == [] then [] else AllEvents(ws[..|ws| - 1]) + TurnEvents(ws[|ws| - 1])
  }

  function TotalSize(ws: seq<Writer>): nat {
    if ws == [] then 0 else TotalSize(ws[..|ws| - 1]) + ws[|ws| - 1].byteSize
  }

  /** The lines of all turns together are the lines of the file. */
  lemma {:induction false} JoinedValues(wire: Wire, ended: seq<Writer>)
    requires wire.Lossless() && AllCounted(wire, ended)
    ensures EventsOf(Values(wire, Joined(wire, ended))) == Some(AllEvents(ended))
    ensures |Joined(wire, ended)| == TotalSize(ended)
  {
    hide Values, Encode, Joined, Counted, AllCounted, EventsOf, IsWritten;
    if ended == [] {
      NoTurns(wire);
    } else {
      var n := |ended| - 1;
      var init, w := ended[..n], ended[n];
      AllCountedInit(wire, ended);
      JoinedValues(wire, init);
      JoinedComplete(wire, init);
      CountedTurn(wire, ended, n);
      ValuesAppend(wire, Joined(wire, init), w.written);
      EventsOfAppend(Values(wire, Joined(wire, init)), w.written);
      JoinedLast(wire, ended);
      assert EventsOf(w.written).Some? && w.byteSize == |Encode(wire, w.written)| by {
        CountedGives(wire, w, Values(wire, Joined(wire, init)));
      }
    }
  }

  lemma NoTurns(wire: Wire)
    ensures Joined(wire, []) == "" && Values(wire, "") == [] && EventsOf([]) == Some([])
  {
    NothingRead(wire);
  }

  lemma JoinedLast(wire: Wire, ended: seq<Writer>)
    requires ended != []
    ensures Joined(wire, ended) == Joined(wire, ended[..|ended| - 1]) + Encode(wire, ended[|ended| - 1].written)
  {
  }

  lemma CountedGives(wire: Wire, w: Writer, base: seq<LineValue>)
    requires Counted(wire, w, base)
    ensures EventsOf(w.written).Some? && w.byteSize == |Encode(wire, w.written)|
  {
  }

  lemma AllCountedInit(wire: Wire, ended: seq<Writer>)
    requires AllCounted(wire, ended) && ended != []
    ensures AllCounted(wire, ended[..|ended| - 1])
  {
    hide Counted, Values, Joined;
    var init := ended[..|ended| - 1];
    assert forall i :: 0 <= i < |init| ==> init[..i] == ended[..i] && init[i] == ended[i];
  }

  /** A header contributes no event, so a regular file's events are those of all its lines. */
  lemma RegularEvents(values: seq<LineValue>)
    requires Numbered(values) && Parse(values).Ok?
    ensures EventsOf(values) == Some(Dedup.EventsIn(values))
  {
    if values != [] {
      EventsOfAppend(values[..1], values[1..]);
      assert values[..1] + values[1..] == values;
      assert values[..1][..0] == [];
      assert [] + EventsOf(values[1..]).value == EventsOf(values[1..]).value;
    }
  }

  /**
   Turn slices tile the file: after any calm run, for every file without an open turn, the ranges of its
   ended turns adjoin from line 1 to the last line; each range reads back exactly that turn's events, event
   count, size and text; the turns' events concatenate to the file's events and their sizes sum to its length.
   */
  lemma TurnsTile(wire: Wire, limit: nat, steps: seq<Step>, path: Path)
    requires wire.Lossless() && forall step <- steps :: CalmStep(step, path.key)
    requires OpenOn(Run(wire, limit, steps), path).None?
    ensures var text := TextAt(Run(wire, limit, steps).disk, path);
      var ended := Ended(wire, limit, steps, path);
      && (forall i :: 0 <= i < |ended| ==>
           && ended[i].startLine == (if i == 0 then 1 else ended[i - 1].endLine + 1)
           && ReadsBack(wire, text, ended[i]))
      && (ended != [] ==> ended[|ended| - 1].endLine == |Lines(text)|)
      && Dedup.EventsIn(Values(wire, text)) == AllEvents(ended)
      && |text| == TotalSize(ended)
  {
    hide ServerInv, RegularThread, Run, Ended, Values, EventsOf, Lines, Joined, AllCounted, Dedup.EventsIn, Parse,
      AllEvents, TotalSize, ReadsBack, Complete;
    var s, ended := Run(wire, limit, steps), Ended(wire, limit, steps, path);
    var text := TextAt(s.disk, path);
    RunIsTiled(wire, limit, steps, path);
    RunIsRegular(wire, limit, steps, path.key, false);
    JoinedComplete(wire, ended);
    LinesOfComplete(wire, text);
    assert text + "" == text && text == Joined(wire, ended);
    NoneIsComplete();
    forall i | 0 <= i < |ended|
      ensures ended[i].startLine == (if i == 0 then 1 else ended[i - 1].endLine + 1)
      ensures ReadsBack(wire, text, ended[i])
    {
      RangesAdjoin(wire, ended, i);
      SliceOfTurn(wire, ended, i, "");
    }
    if ended != [] {
      RangesAdjoin(wire, ended, |ended| - 1);
      assert ended[..|ended|] == ended;
    }
    JoinedValues(wire, ended);
    TextReads(wire, s, path);
    RegularEvents(Values(wire, text));
  }

  lemma NoneIsComplete()
    ensures Complete("")
  {
  }

  /** The range of an ended turn can be read back at any later time, also while another turn is open. */
  lemma SliceAtAnyTime(wire: Wire, limit: nat, steps: seq<Step>, path: Path, i: nat)
    requires wire.Lossless() && forall step <- steps :: CalmStep(step, path.key)
    requires i < |Ended(wire, limit, steps, path)|
    ensures var w := Ended(wire, limit, steps, path)[i];
      ReadsBack(wire, TextAt(Run(wire, limit, steps).disk, path), w)
  {
    hide ServerInv, Values, EventsOf, ReadsBack, RegularText, Regular, AllCounted, Joined;
    var s, ended := Run(wire, limit, steps), Ended(wire, limit, steps, path);
    RunIsTiled(wire, limit, steps, path);
    RunIsRegular(wire, limit, steps, path.key, false);
    var open := match OpenOn(s, path)
      case Some(turn) => Encode(wire, turn.w.written)
      case None => "";
    if OpenOn(s, path).Some? { EncodeAppend(wire, OpenOn(s, path).value.w.written, []); }
    assert TextAt(s.disk, path) == Joined(wire, ended) + open;
    SliceOfTurn(wire, ended, i, open);
  }

  lemma TextReads(wire: Wire, s: Server, path: Path)
    requires RegularThread(wire, s, path.key, false)
    ensures Numbered(Values(wire, TextAt(s.disk, path))) && Parse(Values(wire, TextAt(s.disk, path))).Ok?
  {
    hide Values, Parse;
    TextIsRegular(wire, s, path, false);
    NothingRead(wire);
    if Values(wire, TextAt(s.disk, path)) != [] { NumberedParse(Values(wire, TextAt(s.disk, path))); }
  }
}
