/**
 The conversation log as a state machine: threads of many clients share one store, whose in-memory cache
 and persisted indexes stand in for re-reading a thread's file (`resolve_thread_source` in `cache.rs`,
 `begin` and `finish_with` in `writer.rs`). Between the store's own steps files may be appended to by
 others and the process may crash with the files of its open turns cut anywhere.
 */
module Servers {
  import opened Basics
  import opened Text
  import opened Conversation
  import opened ThreadStates
  import opened Reader
  import opened Writers
  import opened ThreadIndexFile
  import opened LruCache

  /** A turn in progress holds the thread's lock. `base` records the file as `begin` found it. */
  datatype OpenTurn = OpenTurn(w: Writer, base: string)

  /** `clock` is the time of the last file modification. */
  datatype Server = Server(
    disk: Disk, indexes: map<Key, PersistedIndex>, cache: Recency, turns: map<Key, OpenTurn>, clock: nat)

  const EmptyServer := Server(map[], map[], [], map[], 0)

  // ----- resolve_thread_source -----

  datatype Source = FromCache | FromIndex | FromFile

  datatype Resolution = Resolution(server: Server, outcome: Result<(ThreadState, Source), Fault>)

  predicate Matches(disk: Disk, state: ThreadState) {
    DiskStamp(disk, state.path) == Some(state.stamp)
  }

  function SaveIndex(s: Server, key: Key, state: ThreadState): Server {
    match WriteIndex(s.disk, key, state)
    case Some(index) => s.(indexes := s.indexes[key := index])
    case None => s
  }

  /** The state the slow form computes from a segment's file. */
  function LoadedState(path: Path, stamp: Stamp, parsed: Parsed): ThreadState {
    ThreadState(path, parsed.format, stamp, parsed.lineCount, parsed.lastSeq, Rebuild(parsed.events))
  }

  /** The slow form: choose a segment, repair its tail, rebuild the state, remember it. */
  function LoadThread(wire: Wire, limit: nat, s: Server, key: Key): Resolution {
    match Choose(Candidates(wire, s.disk, key))
    case Use(j, parsed) =>
      var path := Path(key, j);
      if path !in s.disk then Resolution(s, Err(InvalidPath))
      else
        var disk := RepairFile(s.disk, path, s.clock + 1);
        var state := LoadedState(path, StampOf(disk[path]), parsed);
        var s1 := s.(disk := disk, clock := s.clock + 1, cache := Insert(s.cache, limit, key, state));
        Resolution(SaveIndex(s1, key, state), Ok((state, FromFile)))
    case Start(j) =>
      var state := EmptyState(Path(key, j));
      Resolution(s.(cache := Insert(s.cache, limit, key, state)), Ok((state, FromFile)))
    case Fail(fault) => Resolution(s, Err(fault))
  }

  function Resolve(wire: Wire, limit: nat, s: Server, key: Key): Resolution {
    var hit := Lookup(s.cache, key);
    var s1 := s.(cache := Touch(s.cache, key));
    if hit.Some? && Matches(s.disk, hit.value) then Resolution(s1, Ok((hit.value, FromCache)))
    else
      var indexed := if key in s.indexes then LoadIndex(s.disk, key, s.indexes[key]) else None;
      match indexed
      case Some(state) =>
        Resolution(s1.(cache := Insert(s1.cache, limit, key, state)), Ok((state, FromIndex)))
      case None => LoadThread(wire, limit, s1, key)
  }

  // ----- Steps -----

  /** `is_safe_path_segment` */
  predicate SafeSegment(value: string) {
    && 0 < |value| <= 128
    && forall c <- value :: 'a' <= c <= 'z' || 'A' <= c <= 'Z' || '0' <= c <= '9' || c == '-' || c == '_'
  }

  /**
   `intruder` is text others append at the worst moment: between resolving the thread and the turn's first
   line, or between the turn's last line and the length check.
   */
  datatype Step =
    | BeginStep(key: Key, session: Session, turn: TurnContext, drafts: seq<ContentDraft>, intruder: string)
    | AppendStep(key: Key, draft: ContentDraft)
    | FinishStep(key: Key, status: Status, details: string, intruder: string)
    | DropStep(key: Key)
    | CrashStep(cuts: map<Key, nat>, lostIndexes: set<Key>)
    | OutsideStep(path: Path, text: string)
    | ForgetStep(paths: set<Path>)

  function TextAt(disk: Disk, path: Path): string {
    if path in disk then disk[path].text else ""
  }

  function Store(s: Server, path: Path, text: string): Server {
    s.(disk := s.disk[path := File(text, s.clock + 1)], clock := s.clock + 1)
  }

  function NewLines(wire: Wire, before: Writer, after: Writer): string {
    if |before.written| <= |after.written| then Encode(wire, after.written[|before.written|..]) else ""
  }

  function DoBegin(wire: Wire, limit: nat, s: Server, step: Step): Server
    requires step.BeginStep?
  {
    if step.key in s.turns || !SafeSegment(step.key.identity) || !SafeSegment(step.key.thread) then s
    else
      var r := Resolve(wire, limit, s, step.key);
      match r.outcome
      case Err(_) => r.server
      case Ok((state, _)) =>
        var base := TextAt(r.server.disk, state.path);
        var w := Begin(wire, state, step.session, step.turn, step.drafts);
        var s1 := Store(r.server, state.path, base + step.intruder + Encode(wire, w.written));
        s1.(turns := s1.turns[step.key := OpenTurn(w, base)])
  }

  function DoAppend(wire: Wire, s: Server, step: Step): Server
    requires step.AppendStep?
  {
    if step.key !in s.turns then s
    else
      var turn := s.turns[step.key];
      var w := AppendContent(wire, turn.w, step.draft).0;
      var s1 := Store(s, w.path, TextAt(s.disk, w.path) + NewLines(wire, turn.w, w));
      s1.(turns := s1.turns[step.key := turn.(w := w)])
  }

  /** The state is published only when the file has the length the writer accounts for. */
  function DoFinish(wire: Wire, limit: nat, s: Server, step: Step): Server
    requires step.FinishStep?
  {
    if step.key !in s.turns then s
    else
      var turn := s.turns[step.key];
      var w := Finish(wire, turn.w, step.status, step.details);
      var text := TextAt(s.disk, w.path) + NewLines(wire, turn.w, w) + step.intruder;
      var s1 := Store(s, w.path, text).(turns := s.turns - {step.key});
      if |text| != w.expectedLen + w.byteSize then s1
      else
        var state := StateOf(w, StampOf(s1.disk[w.path]));
        SaveIndex(s1.(cache := Insert(s1.cache, limit, step.key, state)), step.key, state)
  }

  /** Memory and locks are gone; the files of open turns are cut; an index being written may be lost. */
  function DoCrash(s: Server, step: Step): Server
    requires step.CrashStep?
  {
    Server(
      map path | path in s.disk ::
        if path.key in s.turns && s.turns[path.key].w.path == path && path.key in step.cuts
        then File(s.disk[path].text[..Min(step.cuts[path.key], |s.disk[path].text|)], s.clock + 1)
        else s.disk[path],
      s.indexes - step.lostIndexes, [], map[], s.clock + 1)
  }

  /** Others append to a file, or create it. */
  function DoOutside(s: Server, step: Step): Server
    requires step.OutsideStep?
  {
    Store(s, step.path, TextAt(s.disk, step.path) + step.text)
  }

  function Next(wire: Wire, limit: nat, s: Server, step: Step): Server {
    match step
    case BeginStep(_, _, _, _, _) => DoBegin(wire, limit, s, step)
    case AppendStep(_, _) => DoAppend(wire, s, step)
    case FinishStep(_, _, _, _) => DoFinish(wire, limit, s, step)
    case DropStep(key) => s.(turns := s.turns - {key})
    case CrashStep(_, _) => DoCrash(s, step)
    case OutsideStep(_, _) => DoOutside(s, step)
    case ForgetStep(paths) => s.(cache := RemovePaths(s.cache, paths))
  }

  function Run(wire: Wire, limit: nat, steps: seq<Step>): Server {
    if steps == [] then EmptyServer
    else Next(wire, limit, Run(wire, limit, steps[..|steps| - 1]), steps[|steps| - 1])
  }

  /** Redaction leaves every tool call id that the step gives to this thread alone. */
  predicate StepKeepsIds(wire: Wire, step: Step, key: Key) {
    match step
    case BeginStep(k, _, _, drafts, _) => k == key ==> KeepsToolIds(wire, drafts)
    case AppendStep(k, draft) => k == key ==> KeepsToolId(wire, draft.body)
    case _ => true
  }

  // ----- The invariant -----

  /** The state is what the slow form computes from this text, except for message item ids. */
  ghost predicate StandsFor(wire: Wire, text: string, state: ThreadState) {
    var values := Values(wire, text);
    && Complete(text)
    && Parse(values).Ok?
    && var p := Parse(values).value;
       && state.format == p.format && state.lineCount == p.lineCount && state.seqNo == p.lastSeq
       && Tracks(state.core, p.events)
  }

  /** Every candidate in front of the segment is given up, so the segment is the one to be read. */
  ghost predicate Reached(wire: Wire, disk: Disk, path: Path) {
    path.segment <= MaxRecoveredSegments && GivenUpBefore(Candidates(wire, disk, path.key), path.segment)
  }

  /**
   What is claimed of which threads. `sound`: nobody has created their base file behind a recovered segment
   in use. `kept`: redaction has left the tool call ids given to them alone.
   */
  datatype Trust = Trust(sound: set<Key>, kept: set<Key>)

  const NoTrust := Trust({}, {})

  ghost predicate Describes(wire: Wire, t: Trust, disk: Disk, state: ThreadState) {
    && state.path in disk
    && (state.path.key in t.sound ==> Reached(wire, disk, state.path))
    && StandsFor(wire, disk[state.path].text, state)
    && (state.path.key in t.kept ==> ToolsStandFor(wire, disk[state.path].text, state))
  }

  ghost predicate ToolsStandFor(wire: Wire, text: string, state: ThreadState) {
    ToolsFit(state, Values(wire, text))
  }

  /** A state the store would serve for this thread without reading the file. */
  ghost predicate Served(s: Server, key: Key, state: ThreadState) {
    || ((key, state) in s.cache && Matches(s.disk, state))
    || (key in s.indexes && LoadIndex(s.disk, key, s.indexes[key]) == Some(state))
  }

  predicate OldStamp(stamp: Stamp, clock: nat) {
    stamp.modified.Some? ==> stamp.modified.value <= clock
  }

  ghost predicate OpenTurnOk(wire: Wire, t: Trust, disk: Disk, key: Key, turn: OpenTurn) {
    var w, written := turn.w, Encode(wire, turn.w.written);
    && w.path.key == key && w.path in disk && (key in t.sound ==> Reached(wire, disk, w.path))
    && !w.finished && w.expectedLen == |turn.base| && Complete(turn.base)
    && InSync(w, Values(wire, turn.base)) && Counted(wire, w, Values(wire, turn.base))
    && (key in t.kept ==> ToolsInSync(w, Values(wire, turn.base)))
    && var text := disk[w.path].text;
       && |turn.base| + |written| <= |text|
       && (|turn.base| + |written| == |text| ==> text == turn.base + written)
  }

  ghost predicate ThreadInv(wire: Wire, t: Trust, s: Server, key: Key) {
    && (forall state :: (key, state) in s.cache ==> state.path.key == key && OldStamp(state.stamp, s.clock))
    && (key in s.indexes ==>
         && OldStamp(s.indexes[key].sourceStamp, s.clock)
         && (s.indexes[key].baseStamp.Some? ==> OldStamp(s.indexes[key].baseStamp.value, s.clock)))
    && (forall state :: Served(s, key, state) ==>
         && state.path.key == key
         && Describes(wire, t, s.disk, state)
         && (key in s.turns && key in t.sound ==> state.path == s.turns[key].w.path))
    && (key in s.turns ==> OpenTurnOk(wire, t, s.disk, key, s.turns[key]))
  }

  ghost predicate ClockAhead(s: Server) {
    forall path <- s.disk :: s.disk[path].modified <= s.clock
  }

  ghost predicate ServerInv(wire: Wire, t: Trust, s: Server) {
    && ClockAhead(s)
    && (forall key: Key :: ThreadInv(wire, t, s, key))
  }

  // ----- Frames -----

  /** Files are never removed, and a changed file carries a later time. */
  ghost predicate Later(disk: Disk, disk': Disk, clock: nat) {
    && disk.Keys <= disk'.Keys
    && forall path <- disk' :: (path in disk && disk'[path] == disk[path]) || disk'[path].modified > clock
  }

  /** Old stamps only ever match unchanged files. */
  lemma MatchIsUnchanged(disk: Disk, disk': Disk, clock: nat, path: Path, stamp: Option<Stamp>)
    requires Later(disk, disk', clock)
    requires stamp.Some? ==> OldStamp(stamp.value, clock)
    requires DiskStamp(disk', path) == stamp
    ensures DiskStamp(disk, path) == stamp
    ensures path in disk' ==> path in disk && disk'[path] == disk[path]
  {
  }

  /** What the store serves can only shrink when files change. */
  lemma ServedShrinks(s: Server, s': Server, key: Key, state: ThreadState)
    requires Later(s.disk, s'.disk, s.clock) && Served(s', key, state)
    requires forall st :: (key, st) in s'.cache ==> (key, st) in s.cache
    requires key in s'.indexes ==> key in s.indexes && s'.indexes[key] == s.indexes[key]
    requires forall st :: (key, st) in s.cache ==> OldStamp(st.stamp, s.clock)
    requires key in s.indexes ==>
      && OldStamp(s.indexes[key].sourceStamp, s.clock)
      && (s.indexes[key].baseStamp.Some? ==> OldStamp(s.indexes[key].baseStamp.value, s.clock))
    ensures Served(s, key, state)
    ensures state.path in s.disk && state.path in s'.disk && s'.disk[state.path] == s.disk[state.path]
  {
    if (key, state) in s'.cache && Matches(s'.disk, state) {
      MatchIsUnchanged(s.disk, s'.disk, s.clock, state.path, Some(state.stamp));
    } else {
      var index := s.indexes[key];
      MatchIsUnchanged(s.disk, s'.disk, s.clock, index.path, Some(index.sourceStamp));
      MatchIsUnchanged(s.disk, s'.disk, s.clock, Path(key, 0), index.baseStamp);
    }
  }

  /** Candidates that were given up stay given up when their files only grow. */
  lemma ReachedLater(wire: Wire, disk: Disk, disk': Disk, path: Path)
    requires Reached(wire, disk, path)
    requires forall i | 0 <= i < path.segment ::
      && (Path(path.key, i) in disk <==> Path(path.key, i) in disk')
      && (Path(path.key, i) in disk ==> TextAt(disk, Path(path.key, i)) <= TextAt(disk', Path(path.key, i)))
    ensures Reached(wire, disk', path)
  {
    hide Parse, Values;
    forall i | 0 <= i < path.segment
      ensures Candidates(wire, disk', path.key)[i].Corrupt? || (i == 0 && Candidates(wire, disk', path.key)[i].Missing?)
    {
      var p := Path(path.key, i);
      assert Candidates(wire, disk, path.key)[i] == Inspect(wire, disk, p);
      if Inspect(wire, disk, p).Corrupt? { CorruptStays(wire, disk[p].text, disk'[p].text); }
    }
  }

  lemma CorruptStays(wire: Wire, text: string, text': string)
    requires text <= text' && Parse(Values(wire, text)).Err?
    ensures Parse(Values(wire, text')) == Parse(Values(wire, text))
  {
    hide Parse, Values;
    ValuesOfPrefix(wire, text', text);
    var a, b := Values(wire, text), Values(wire, text');
    assert b == a + b[|a|..];
    FaultsAreStable(a, b[|a|..]);
  }

  /** A described state is the one the slow form chooses. */
  lemma DescribedIsChosen(wire: Wire, t: Trust, disk: Disk, state: ThreadState)
    requires Describes(wire, t, disk, state) && state.path.key in t.sound
    ensures Choose(Candidates(wire, disk, state.path.key))
         == Use(state.path.segment, Parse(Values(wire, disk[state.path].text)).value)
  {
    hide Parse, Values;
    UsedIff(Candidates(wire, disk, state.path.key), state.path.segment,
      Parse(Values(wire, disk[state.path].text)).value);
  }

  /** Nothing about a thread changes when none of its files, its index, its cache entry or its turn does. */
  lemma FrameThread(wire: Wire, t: Trust, s: Server, s': Server, key: Key)
    requires ThreadInv(wire, t, s, key) && s.clock <= s'.clock && Later(s.disk, s'.disk, s.clock)
    requires forall path: Path :: path.key == key ==> (path in s.disk <==> path in s'.disk)
    requires forall path <- s.disk :: path.key == key ==> s'.disk[path] == s.disk[path]
    requires forall st :: (key, st) in s'.cache ==> (key, st) in s.cache
    requires key in s'.indexes ==> key in s.indexes && s'.indexes[key] == s.indexes[key]
    requires key in s'.turns ==> key in s.turns && s'.turns[key] == s.turns[key]
    ensures ThreadInv(wire, t, s', key)
  {
    hide StandsFor, ToolsStandFor, Reached, InSync, ToolsInSync, Counted, Matches, LoadIndex;
    forall state | Served(s', key, state)
      ensures state.path.key == key && Describes(wire, t, s'.disk, state)
      ensures key in s'.turns && key in t.sound ==> state.path == s'.turns[key].w.path
    {
      ServedShrinks(s, s', key, state);
      if key in t.sound { ReachedLater(wire, s.disk, s'.disk, state.path); }
    }
    if key in s'.turns && key in t.sound { ReachedLater(wire, s.disk, s'.disk, s.turns[key].w.path); }
  }

  /** A step of one thread: other threads keep their files, index and turn, and may only lose cache entries. */
  ghost predicate OnlyThread(s: Server, s': Server, key: Key) {
    && s.clock <= s'.clock && Later(s.disk, s'.disk, s.clock)
    && ClockAhead(s')
    && (forall path: Path :: path.key != key ==>
         && (path in s.disk <==> path in s'.disk)
         && (path in s.disk ==> s'.disk[path] == s.disk[path]))
    && (forall e <- s'.cache :: e in s.cache || e.0 == key)
    && (forall k: Key :: k != key ==>
         && (k in s'.indexes ==> k in s.indexes && s'.indexes[k] == s.indexes[k])
         && (k in s'.turns ==> k in s.turns && s'.turns[k] == s.turns[k]))
  }

  lemma OtherThreads(wire: Wire, t: Trust, s: Server, s': Server, key: Key)
    requires ServerInv(wire, t, s) && OnlyThread(s, s', key) && ThreadInv(wire, t, s', key)
    ensures ServerInv(wire, t, s')
  {
    hide ThreadInv, Later;
    forall k: Key ensures ThreadInv(wire, t, s', k) {
      assert ThreadInv(wire, t, s, k);
      if k != key { FrameThread(wire, t, s, s', k); }
    }
  }

  // ----- Resolving keeps the invariant -----

  /** What the index yields is the state that was written to it, or nothing. */
  lemma LoadOfWritten(disk: Disk, key: Key, state: ThreadState)
    requires WriteIndex(disk, key, state).Some? && state.path.key == key
    ensures var back := LoadIndex(disk, key, WriteIndex(disk, key, state).value);
      back.None? || back == Some(state)
    ensures var index := WriteIndex(disk, key, state).value;
      index.sourceStamp == state.stamp
  {
  }

  /** Remembering a described state in the cache and the index. */
  lemma PublishInv(wire: Wire, t: Trust, limit: nat, s: Server, key: Key, state: ThreadState)
    requires ThreadInv(wire, t, s, key) && key !in s.turns
    requires ClockAhead(s)
    requires Describes(wire, t, s.disk, state) && Matches(s.disk, state) && state.path.key == key
    ensures var s' := SaveIndex(s.(cache := Insert(s.cache, limit, key, state)), key, state);
      ThreadInv(wire, t, s', key) && OnlyThread(s, s', key)
  {
    hide Describes, IndexOf, LoadIndex;
    var s1 := s.(cache := Insert(s.cache, limit, key, state));
    var s' := SaveIndex(s1, key, state);
    MembersOnly(s.cache, limit, key, state);
    if WriteIndex(s.disk, key, state).Some? {
      LoadOfWritten(s.disk, key, state);
      WrittenStamps(s.disk, key, state);
    }
    forall st | Served(s', key, st) ensures st == state || Served(s, key, st) {
      if (key, st) in s'.cache && Matches(s'.disk, st) {
        assert (key, st) in s.cache || st == state;
      }
    }
  }

  lemma WrittenStamps(disk: Disk, key: Key, state: ThreadState)
    requires WriteIndex(disk, key, state).Some?
    ensures var index := WriteIndex(disk, key, state).value;
      index.baseStamp.Some? && index.baseStamp.value.modified.Some? ==>
        Path(key, 0) in disk && index.baseStamp.value.modified.value == disk[Path(key, 0)].modified
  {
  }

  /** The state a turn may start from. */
  ghost predicate Resolved(wire: Wire, t: Trust, s: Server, key: Key, state: ThreadState) {
    var text := TextAt(s.disk, state.path);
    && state.path.key == key && (key in t.sound ==> Reached(wire, s.disk, state.path))
    && Complete(text) && state.stamp.len == |text|
    && Fits(state, Values(wire, text)) && (key in t.kept ==> ToolsFit(state, Values(wire, text)))
    && (state.path !in s.disk ==> Choose(Candidates(wire, s.disk, key)) == Start(state.path.segment))
    && (key in t.sound ==> forall st :: Served(s, key, st) ==> st.path == state.path)
  }

  lemma DescribedResolves(wire: Wire, t: Trust, s: Server, key: Key, state: ThreadState)
    requires ThreadInv(wire, t, s, key) && state.path.key == key
    requires Describes(wire, t, s.disk, state) && Matches(s.disk, state)
    ensures Resolved(wire, t, s, key, state)
  {
    hide Parse, Values, Tracks, LoadIndex, GivenUpBefore;
    forall st | Served(s, key, st) && key in t.sound ensures st.path == state.path {
      DescribedIsChosen(wire, t, s.disk, st);
      DescribedIsChosen(wire, t, s.disk, state);
    }
  }

  lemma TouchInv(wire: Wire, t: Trust, s: Server, key: Key, other: Key)
    requires ThreadInv(wire, t, s, other)
    ensures ThreadInv(wire, t, s.(cache := Touch(s.cache, key)), other)
  {
    MembersOnly(s.cache, 0, key, EmptyState(Path(key, 0)));
    FrameThread(wire, t, s, s.(cache := Touch(s.cache, key)), other);
  }

  /** The repaired file and the rebuilt state belong together. */
  lemma LoadedDescribes(wire: Wire, t: Trust, disk: Disk, path: Path, now: nat, parsed: Parsed)
    requires path in disk && Choose(Candidates(wire, disk, path.key)) == Use(path.segment, parsed)
    ensures var disk' := RepairFile(disk, path, now);
      var state := LoadedState(path, StampOf(disk'[path]), parsed);
      Describes(wire, t, disk', state) && Matches(disk', state)
  {
    hide Parse, Values, Choose, Tracks, Rebuild, ToolRefs;
    var cs := Candidates(wire, disk, path.key);
    SegmentChoice(cs);
    assert cs[path.segment] == Inspect(wire, disk, path);
    var text, disk' := disk[path].text, RepairFile(disk, path, now);
    RepairIdempotent(text);
    RepairIsLongestCompletePrefix(text, "");
    ValuesOfRepaired(wire, text);
    RebuildTracks(parsed.events);
    ReachedLater(wire, disk, disk', path);
  }

  lemma ChosenExists(wire: Wire, disk: Disk, key: Key)
    requires Choose(Candidates(wire, disk, key)).Use?
    ensures Path(key, Choose(Candidates(wire, disk, key)).segment) in disk
  {
    hide Parse, Values, Choose;
    SegmentChoice(Candidates(wire, disk, key));
  }

  lemma LoadsChosen(wire: Wire, limit: nat, s: Server, key: Key)
    requires Choose(Candidates(wire, s.disk, key)).Use?
    requires Path(key, Choose(Candidates(wire, s.disk, key)).segment) in s.disk
    ensures var c := Choose(Candidates(wire, s.disk, key));
      var path := Path(key, c.segment);
      var s1 := s.(disk := RepairFile(s.disk, path, s.clock + 1), clock := s.clock + 1);
      && path in s1.disk
      && var state := LoadedState(path, StampOf(s1.disk[path]), c.parsed);
         LoadThread(wire, limit, s, key)
           == Resolution(SaveIndex(s1.(cache := Insert(s.cache, limit, key, state)), key, state), Ok((state, FromFile)))
  {
    hide Choose, Candidates, SaveIndex, LoadedState;
  }

  /** Repairing the chosen segment and rebuilding its state. */
  lemma LoadUseInv(wire: Wire, t: Trust, limit: nat, s: Server, key: Key)
    requires ServerInv(wire, t, s) && key !in s.turns
    requires Choose(Candidates(wire, s.disk, key)).Use?
    ensures var r := LoadThread(wire, limit, s, key);
      && ThreadInv(wire, t, r.server, key) && OnlyThread(s, r.server, key)
      && r.outcome.Ok? && Resolved(wire, t, r.server, key, r.outcome.value.0)
      && Describes(wire, t, r.server.disk, r.outcome.value.0) && Matches(r.server.disk, r.outcome.value.0)
  {
    hide Describes, Resolved, Candidates, Choose, ThreadInv, Rebuild, ServerInv, OnlyThread, SaveIndex,
        Matches, LoadThread, RepairFile;
    var c := Choose(Candidates(wire, s.disk, key));
    ChosenExists(wire, s.disk, key);
    LoadsChosen(wire, limit, s, key);
    var path := Path(key, c.segment);
    LoadedDescribes(wire, t, s.disk, path, s.clock + 1, c.parsed);
    RepairInv(wire, t, s, key, path);
    var s1 := s.(disk := RepairFile(s.disk, path, s.clock + 1), clock := s.clock + 1);
    var state := LoadedState(path, StampOf(s1.disk[path]), c.parsed);
    PublishInv(wire, t, limit, s1, key, state);
    var s2 := LoadThread(wire, limit, s, key).server;
    assert s2.disk == s1.disk by { SavingKeepsDisk(s1.(cache := Insert(s1.cache, limit, key, state)), key, state); }
    OnlyThreadTrans(s, s1, s2, key);
    DescribedResolves(wire, t, s2, key, state);
  }

  lemma OnlyThreadTrans(a: Server, b: Server, c: Server, key: Key)
    requires OnlyThread(a, b, key) && OnlyThread(b, c, key)
    ensures OnlyThread(a, c, key)
  {
  }

  lemma SavingKeepsDisk(s: Server, key: Key, state: ThreadState)
    ensures var s' := SaveIndex(s, key, state);
      s'.disk == s.disk && s'.cache == s.cache && s'.turns == s.turns && s'.clock == s.clock
  {
  }

  /** Repairing a torn file cannot disturb a served state: there is none for its thread. */
  lemma RepairInv(wire: Wire, t: Trust, s: Server, key: Key, path: Path)
    requires ServerInv(wire, t, s) && key !in s.turns && path.key == key && path in s.disk
    requires Choose(Candidates(wire, s.disk, key)).Use? && Choose(Candidates(wire, s.disk, key)).segment == path.segment
    ensures var s1 := s.(disk := RepairFile(s.disk, path, s.clock + 1), clock := s.clock + 1);
      ThreadInv(wire, t, s1, key) && OnlyThread(s, s1, key) && ClockAhead(s1)
  {
    hide Parse, Values, Reached, LoadIndex, Choose, Tracks;
    var s1 := s.(disk := RepairFile(s.disk, path, s.clock + 1), clock := s.clock + 1);
    assert ThreadInv(wire, t, s, key);
    forall st | Served(s1, key, st) ensures st.path.key == key && Describes(wire, t, s1.disk, st) {
      ServedShrinks(s, s1, key, st);
      if key in t.sound {
        DescribedIsChosen(wire, t, s.disk, st);
        assert st.path == path;
      }
    }
  }

  lemma StartFits(wire: Wire, disk: Disk, path: Path)
    requires Choose(Candidates(wire, disk, path.key)) == Start(path.segment)
    ensures path !in disk && Reached(wire, disk, path)
    ensures Fits(EmptyState(path), Values(wire, "")) && ToolsFit(EmptyState(path), Values(wire, ""))
  {
    hide Values, Choose, Tracks;
    var cs := Candidates(wire, disk, path.key);
    SegmentChoice(cs);
    assert cs[path.segment] == Inspect(wire, disk, path);
    NothingRead(wire);
    RebuildTracks([]);
  }

  /** While there is nothing to read, nothing is served. */
  lemma NothingServed(wire: Wire, t: Trust, s: Server, key: Key, state: ThreadState)
    requires ThreadInv(wire, t, s, key) && Choose(Candidates(wire, s.disk, key)).Start? && key in t.sound
    ensures !Served(s, key, state)
  {
    hide Choose, Served, Candidates;
    if Served(s, key, state) { DescribedIsChosen(wire, t, s.disk, state); }
  }

  /** Starting a segment that does not exist yet. */
  lemma LoadStartInv(wire: Wire, t: Trust, limit: nat, s: Server, key: Key)
    requires ThreadInv(wire, t, s, key) && ClockAhead(s) && key !in s.turns
    requires Choose(Candidates(wire, s.disk, key)).Start?
    ensures var r := LoadThread(wire, limit, s, key);
      && ThreadInv(wire, t, r.server, key) && OnlyThread(s, r.server, key)
      && r.outcome.Ok? && Resolved(wire, t, r.server, key, r.outcome.value.0)
  {
    hide Values, LoadIndex, Choose, Fits, ToolsFit, Candidates, Reached, Describes, Served;
    var path := Path(key, Choose(Candidates(wire, s.disk, key)).segment);
    var state := EmptyState(path);
    var s' := s.(cache := Insert(s.cache, limit, key, state));
    StartFits(wire, s.disk, path);
    MembersOnly(s.cache, limit, key, state);
    forall st | Served(s', key, st) ensures Served(s, key, st) && key !in t.sound {
      StartIsNotServed(s, limit, key, path, st);
      if key in t.sound { NothingServed(wire, t, s, key, st); }
    }
  }

  /** Remembering an empty state serves nothing: no file has its stamp. */
  lemma StartIsNotServed(s: Server, limit: nat, key: Key, path: Path, state: ThreadState)
    requires Served(s.(cache := Insert(s.cache, limit, key, EmptyState(path))), key, state)
    ensures Served(s, key, state)
  {
    MembersOnly(s.cache, limit, key, EmptyState(path));
  }

  lemma NothingRead(wire: Wire)
    ensures Values(wire, "") == [] && Parse([]) == Ok(Parsed(Legacy, [], 0, 0))
  {
  }

  /**
   What resolving leaves behind: the invariant holds, no other thread is touched, the state fits the file
   the turn will continue, and a state taken from the cache or the index describes its file.
   */
  ghost predicate Settled(wire: Wire, t: Trust, s: Server, r: Resolution, key: Key) {
    && ServerInv(wire, t, r.server) && r.server.turns == s.turns && OnlyThread(s, r.server, key)
    && (r.outcome.Ok? ==>
         && Resolved(wire, t, r.server, key, r.outcome.value.0)
         && (!r.outcome.value.1.FromFile? ==>
              Describes(wire, t, s.disk, r.outcome.value.0) && r.server.disk == s.disk))
  }

  /** Resolving a thread keeps the invariant. */
  lemma ResolveInv(wire: Wire, t: Trust, limit: nat, s: Server, key: Key)
    requires ServerInv(wire, t, s) && key !in s.turns
    ensures Settled(wire, t, s, Resolve(wire, limit, s, key), key)
  {
    hide ServerInv, OnlyThread, Resolved, Describes, LoadIndex, LoadThread, Matches;
    var hit := Lookup(s.cache, key);
    var s1 := s.(cache := Touch(s.cache, key));
    TouchServer(wire, t, s, key);
    if hit.Some? && Matches(s.disk, hit.value) {
      HitSettles(wire, t, s, key);
    } else if key in s.indexes && LoadIndex(s.disk, key, s.indexes[key]).Some? {
      IndexedInv(wire, t, limit, s1, key);
      OnlyThreadTrans(s, s1, Resolve(wire, limit, s, key).server, key);
    } else {
      LoadSettles(wire, t, limit, s1, key);
      OnlyThreadTrans(s, s1, Resolve(wire, limit, s, key).server, key);
    }
  }

  lemma HitSettles(wire: Wire, t: Trust, s: Server, key: Key)
    requires ServerInv(wire, t, s) && key !in s.turns
    requires Lookup(s.cache, key).Some? && Matches(s.disk, Lookup(s.cache, key).value)
    ensures var s1 := s.(cache := Touch(s.cache, key));
      Describes(wire, t, s.disk, Lookup(s.cache, key).value) && Resolved(wire, t, s1, key, Lookup(s.cache, key).value)
  {
    hide ThreadInv, Resolved, Describes, OnlyThread;
    var s1 := s.(cache := Touch(s.cache, key));
    TouchServer(wire, t, s, key);
    CachedIsServed(wire, t, s, key);
    assert ThreadInv(wire, t, s1, key);
    DescribedResolves(wire, t, s1, key, Lookup(s.cache, key).value);
  }

  /** The slow form settles too, and always from the file. */
  lemma LoadSettles(wire: Wire, t: Trust, limit: nat, s: Server, key: Key)
    requires ServerInv(wire, t, s) && key !in s.turns
    ensures Settled(wire, t, s, LoadThread(wire, limit, s, key), key)
    ensures LoadThread(wire, limit, s, key).outcome.Ok? ==> LoadThread(wire, limit, s, key).outcome.value.1 == FromFile
  {
    LoadKeepsTurns(wire, limit, s, key);
    var c, r := Choose(Candidates(wire, s.disk, key)), LoadThread(wire, limit, s, key);
    if c.Use? {
      hide OnlyThread, ThreadInv, Choose, Candidates, LoadThread, Resolved, Describes, ServerInv;
      LoadUseInv(wire, t, limit, s, key);
      OtherThreads(wire, t, s, r.server, key);
    } else if c.Start? {
      hide OnlyThread, Choose, Candidates, LoadThread, Resolved, Describes, ThreadInv;
      assert ThreadInv(wire, t, s, key);
      LoadStartInv(wire, t, limit, s, key);
      OtherThreads(wire, t, s, r.server, key);
    } else {
      hide Resolved, Describes, Choose, Candidates, ThreadInv;
    }
  }

  lemma LoadKeepsTurns(wire: Wire, limit: nat, s: Server, key: Key)
    ensures LoadThread(wire, limit, s, key).server.turns == s.turns
    ensures LoadThread(wire, limit, s, key).outcome.Ok? ==> LoadThread(wire, limit, s, key).outcome.value.1 == FromFile
  {
  }

  lemma TouchServer(wire: Wire, t: Trust, s: Server, key: Key)
    requires ServerInv(wire, t, s)
    ensures var s1 := s.(cache := Touch(s.cache, key)); ServerInv(wire, t, s1) && OnlyThread(s, s1, key)
  {
    hide ThreadInv;
    forall k: Key ensures ThreadInv(wire, t, s.(cache := Touch(s.cache, key)), k) {
      assert ThreadInv(wire, t, s, k);
      TouchInv(wire, t, s, key, k);
    }
    MembersOnly(s.cache, 0, key, EmptyState(Path(key, 0)));
  }

  lemma CachedIsServed(wire: Wire, t: Trust, s: Server, key: Key)
    requires ServerInv(wire, t, s) && key !in s.turns
    requires Lookup(s.cache, key).Some? && Matches(s.disk, Lookup(s.cache, key).value)
    ensures var state := Lookup(s.cache, key).value;
      state.path.key == key && Describes(wire, t, s.disk, state)
  {
    hide Describes, Resolved, LoadIndex;
    assert ThreadInv(wire, t, s, key);
    var state := Lookup(s.cache, key).value;
    MembersOnly(s.cache, 0, key, state);
    assert Served(s, key, state);
  }

  lemma IndexedInv(wire: Wire, t: Trust, limit: nat, s: Server, key: Key)
    requires ServerInv(wire, t, s) && key !in s.turns
    requires key in s.indexes && LoadIndex(s.disk, key, s.indexes[key]).Some?
    ensures var state := LoadIndex(s.disk, key, s.indexes[key]).value;
      var s' := s.(cache := Insert(s.cache, limit, key, state));
      && ServerInv(wire, t, s') && OnlyThread(s, s', key)
      && Describes(wire, t, s.disk, state) && Resolved(wire, t, s', key, state)
  {
    hide Describes, Resolved;
    var state := LoadIndex(s.disk, key, s.indexes[key]).value;
    var s' := s.(cache := Insert(s.cache, limit, key, state));
    assert ThreadInv(wire, t, s, key);
    assert Served(s, key, state);
    MembersOnly(s.cache, limit, key, state);
    LoadedMatches(s.disk, key, s.indexes[key]);
    assert forall st :: Served(s', key, st) ==> Served(s, key, st);
    DescribedResolves(wire, t, s', key, state);
    OtherThreads(wire, t, s, s', key);
  }

  // ----- Every step keeps the invariant -----

  function SetTurn(s: Server, key: Key, turn: Option<OpenTurn>): Server {
    match turn
    case Some(open) => s.(turns := s.turns[key := open])
    case None => s.(turns := s.turns - {key})
  }

  /** After a turn has written to its file, nothing is served for its thread. */
  lemma WriteInv(wire: Wire, t: Trust, s: Server, key: Key, path: Path, text: string, turn: Option<OpenTurn>)
    requires ServerInv(wire, t, s) && path.key == key
    requires key in t.sound ==> forall st :: Served(s, key, st) ==> st.path == path
    requires turn.Some? ==> OpenTurnOk(wire, t, Store(s, path, text).disk, key, turn.value)
    ensures var s' := SetTurn(Store(s, path, text), key, turn);
      ServerInv(wire, t, s') && OnlyThread(s, s', key)
  {
    hide OpenTurnOk, StandsFor, ToolsStandFor, Reached, Matches, LoadIndex;
    var s' := SetTurn(Store(s, path, text), key, turn);
    assert ThreadInv(wire, t, s, key);
    forall st | Served(s', key, st) ensures st.path.key == key && key !in t.sound && Describes(wire, t, s'.disk, st) {
      ServedShrinks(s, s', key, st);
    }
    OtherThreads(wire, t, s, s', key);
  }

  lemma BeginFields(wire: Wire, state: ThreadState, session: Session, turn: TurnContext, drafts: seq<ContentDraft>)
    ensures var w := Begin(wire, state, session, turn, drafts);
      w.path == state.path && w.expectedLen == state.stamp.len && !w.finished
  {
    ProcessFields(wire, Preamble(wire, state, session, turn), drafts);
  }

  lemma {:induction false} ProcessFields(wire: Wire, w: Writer, drafts: seq<ContentDraft>)
    ensures var w' := Process(wire, w, drafts).w;
      w'.path == w.path && w'.expectedLen == w.expectedLen && w'.finished == w.finished
  {
    if drafts == [] {
    } else {
      ProcessFields(wire, w, drafts[..|drafts| - 1]);
    }
  }

  lemma BeginInv(wire: Wire, t: Trust, limit: nat, s: Server, step: Step)
    requires ServerInv(wire, t, s) && step.BeginStep? && (step.key in t.kept ==> StepKeepsIds(wire, step, step.key))
    ensures ServerInv(wire, t, DoBegin(wire, limit, s, step))
  {
    hide ServerInv, Served, InSync, ToolsInSync, ToolsFit, Counted, Fits, Begin, Resolve, OnlyThread, KeepsToolIds;
    if step.key !in s.turns && SafeSegment(step.key.identity) && SafeSegment(step.key.thread) {
      ResolveInv(wire, t, limit, s, step.key);
      var r := Resolve(wire, limit, s, step.key);
      if r.outcome.Ok? {
        var state := r.outcome.value.0;
        var base := TextAt(r.server.disk, state.path);
        var w := Begin(wire, state, step.session, step.turn, step.drafts);
        BeginInSync(wire, state, step.session, step.turn, step.drafts, Values(wire, base));
        BeginFields(wire, state, step.session, step.turn, step.drafts);
        var text := base + step.intruder + Encode(wire, w.written);
        assert |base| + |Encode(wire, w.written)| == |text| ==> base + step.intruder == base;
        if step.key in t.sound {
          ReachedLater(wire, r.server.disk, Store(r.server, state.path, text).disk, state.path);
        }
        WriteInv(wire, t, r.server, step.key, state.path, text, Some(OpenTurn(w, base)));
      }
    }
  }

  /** Writing more lines of an open turn: the text grows by exactly those lines. */
  lemma GrowText(wire: Wire, w: Writer, w': Writer, base: string, text: string)
    requires w.written <= w'.written
    requires |base| + |Encode(wire, w.written)| <= |text|
    requires |base| + |Encode(wire, w.written)| == |text| ==> text == base + Encode(wire, w.written)
    ensures var text' := text + NewLines(wire, w, w');
      && |base| + |Encode(wire, w'.written)| <= |text'|
      && (|base| + |Encode(wire, w'.written)| == |text'| ==> text' == base + Encode(wire, w'.written))
  {
    var more := w'.written[|w.written|..];
    assert w'.written == w.written + more;
    EncodeAppend(wire, w.written, more);
    if text == base + Encode(wire, w.written) {
      assert text + Encode(wire, more) == base + (Encode(wire, w.written) + Encode(wire, more));
    }
  }

  lemma AppendInv(wire: Wire, t: Trust, s: Server, step: Step)
    requires ServerInv(wire, t, s) && step.AppendStep? && (step.key in t.kept ==> StepKeepsIds(wire, step, step.key))
    ensures ServerInv(wire, t, DoAppend(wire, s, step))
  {
    hide InSync, ToolsInSync, Counted, NewLines, WriteContent, Served, Describes, Encode;
    if step.key in s.turns {
      assert ThreadInv(wire, t, s, step.key);
      var turn := s.turns[step.key];
      var w := AppendContent(wire, turn.w, step.draft).0;
      AppendInSync(wire, turn.w, step.draft, Values(wire, turn.base));
      WriteContentFields(wire, turn.w, step.draft);
      var text := s.disk[w.path].text;
      GrowText(wire, turn.w, w, turn.base, text);
      var text' := text + NewLines(wire, turn.w, w);
      if step.key in t.sound { ReachedLater(wire, s.disk, Store(s, w.path, text').disk, w.path); }
      WriteInv(wire, t, s, step.key, w.path, text', Some(turn.(w := w)));
    }
  }

  lemma WriteContentFields(wire: Wire, w: Writer, draft: ContentDraft)
    ensures var w' := WriteContent(wire, w, draft);
      w'.path == w.path && w'.expectedLen == w.expectedLen && w'.finished == w.finished && w.written <= w'.written
  {
  }

  lemma FinishFields(wire: Wire, w: Writer, status: Status, details: string)
    ensures var w' := Finish(wire, w, status, details);
      w'.path == w.path && w'.expectedLen == w.expectedLen && w.written <= w'.written
  {
  }

  /** When the length is the accounted one, the writer's state stands for the file. */
  lemma FinishedStandsFor(wire: Wire, w: Writer, base: string, stamp: Stamp)
    requires wire.Lossless() && Complete(base)
    requires InSync(w, Values(wire, base))
    ensures StandsFor(wire, base + Encode(wire, w.written), StateOf(w, stamp))
    ensures ToolsInSync(w, Values(wire, base)) ==>
      ToolsStandFor(wire, base + Encode(wire, w.written), StateOf(w, stamp))
  {
    hide Parse, Values, Tracks, ToolsAgree;
    assert forall k :: 0 <= k < |w.written| ==> w.written[k] in w.written;
    ValuesAppend(wire, base, w.written);
  }

  lemma FinishInv(wire: Wire, t: Trust, limit: nat, s: Server, step: Step)
    requires wire.Lossless() && ServerInv(wire, t, s) && step.FinishStep?
    ensures ServerInv(wire, t, DoFinish(wire, limit, s, step))
  {
    hide InSync, ToolsInSync, NewLines, Served, Describes, Encode, Finish, StandsFor, ToolsStandFor, Values;
    if step.key in s.turns {
      assert ThreadInv(wire, t, s, step.key);
      var turn := s.turns[step.key];
      var w := Finish(wire, turn.w, step.status, step.details);
      FinishInSync(wire, turn.w, step.status, step.details, Values(wire, turn.base));
      FinishFields(wire, turn.w, step.status, step.details);
      var before := s.disk[w.path].text;
      GrowText(wire, turn.w, w, turn.base, before);
      var text := before + NewLines(wire, turn.w, w) + step.intruder;
      var s1 := Store(s, w.path, text).(turns := s.turns - {step.key});
      if step.key in t.sound { ReachedLater(wire, s.disk, s1.disk, w.path); }
      WriteInv(wire, t, s, step.key, w.path, text, None);
      if |text| == w.expectedLen + w.byteSize {
        assert before + NewLines(wire, turn.w, w) == text;
        FinishedStandsFor(wire, w, turn.base, StampOf(s1.disk[w.path]));
        PublishFinished(wire, t, limit, s1, step.key, w);
      }
    }
  }

  lemma PublishFinished(wire: Wire, t: Trust, limit: nat, s: Server, key: Key, w: Writer)
    requires ServerInv(wire, t, s) && key !in s.turns && w.path.key == key && w.path in s.disk
    requires key in t.sound ==> Reached(wire, s.disk, w.path)
    requires StandsFor(wire, s.disk[w.path].text, StateOf(w, StampOf(s.disk[w.path])))
    requires key in t.kept ==> ToolsStandFor(wire, s.disk[w.path].text, StateOf(w, StampOf(s.disk[w.path])))
    ensures var state := StateOf(w, StampOf(s.disk[w.path]));
      ServerInv(wire, t, SaveIndex(s.(cache := Insert(s.cache, limit, key, state)), key, state))
  {
    hide StandsFor, ToolsStandFor, Reached, ThreadInv, SaveIndex;
    var state := StateOf(w, StampOf(s.disk[w.path]));
    assert ThreadInv(wire, t, s, key);
    PublishInv(wire, t, limit, s, key, state);
    OtherThreads(wire, t, s, SaveIndex(s.(cache := Insert(s.cache, limit, key, state)), key, state), key);
  }

  lemma CrashInv(wire: Wire, t: Trust, s: Server, step: Step)
    requires ServerInv(wire, t, s) && step.CrashStep?
    ensures ServerInv(wire, t, DoCrash(s, step))
  {
    hide StandsFor, ToolsStandFor, Reached, LoadIndex, Matches, OpenTurnOk;
    var s' := DoCrash(s, step);
    forall key: Key ensures ThreadInv(wire, t, s', key) {
      assert ThreadInv(wire, t, s, key);
      forall st | Served(s', key, st) ensures st.path.key == key && Describes(wire, t, s'.disk, st) {
        ServedShrinks(s, s', key, st);
        if key in t.sound { ReachedLater(wire, s.disk, s'.disk, st.path); }
      }
    }
  }

  /** A recovered segment of the thread is served or being written. */
  ghost predicate SegmentInUse(s: Server, key: Key) {
    || (exists st :: Served(s, key, st) && st.path.segment > 0)
    || (key in s.turns && s.turns[key].w.path.segment > 0)
  }

  /** The step makes others create a base file that a reload would prefer to the segment in use. */
  ghost predicate Disturbs(wire: Wire, s: Server, step: Step, key: Key) {
    && step.OutsideStep? && step.path == Path(key, 0) && step.path !in s.disk
    && !Inspect(wire, Store(s, step.path, step.text).disk, step.path).Corrupt?
    && SegmentInUse(s, key)
  }

  /** Writing by others, to an existing file or a new one, keeps a segment the chosen one unless it disturbs. */
  lemma ReachedOutside(wire: Wire, s: Server, step: Step, path: Path)
    requires step.OutsideStep? && Reached(wire, s.disk, path) && (path.segment > 0 ==> SegmentInUse(s, path.key))
    requires !Disturbs(wire, s, step, path.key)
    ensures Reached(wire, DoOutside(s, step).disk, path)
  {
    hide Parse, Values, SegmentInUse;
    var disk' := DoOutside(s, step).disk;
    forall i | 0 <= i < path.segment
      ensures Candidates(wire, disk', path.key)[i].Corrupt? || (i == 0 && Candidates(wire, disk', path.key)[i].Missing?)
    {
      var p := Path(path.key, i);
      assert Candidates(wire, s.disk, path.key)[i] == Inspect(wire, s.disk, p);
      if p in s.disk {
        CorruptStays(wire, s.disk[p].text, disk'[p].text);
      } else {
        assert "" + step.text == step.text;
      }
    }
  }

  lemma OutsideInv(wire: Wire, t: Trust, s: Server, step: Step)
    requires ServerInv(wire, t, s) && step.OutsideStep?
    requires forall key <- t.sound :: !Disturbs(wire, s, step, key)
    ensures ServerInv(wire, t, DoOutside(s, step))
  {
    hide StandsFor, ToolsStandFor, Reached, LoadIndex, Matches, InSync, ToolsInSync, Counted, Disturbs;
    var s', key := DoOutside(s, step), step.path.key;
    assert ThreadInv(wire, t, s, key);
    forall st | Served(s', key, st)
      ensures st.path.key == key && Describes(wire, t, s'.disk, st)
      ensures key in s'.turns && key in t.sound ==> st.path == s'.turns[key].w.path
    {
      ServedShrinks(s, s', key, st);
      if key in t.sound { ReachedOutside(wire, s, step, st.path); }
    }
    if key in s.turns && key in t.sound { ReachedOutside(wire, s, step, s.turns[key].w.path); }
    OtherThreads(wire, t, s, s', key);
  }

  /**
   When others create the missing base of a thread whose recovered segment is cached, the cache goes on
   serving the segment; a reload agrees with it exactly when the new base is corrupt.
   */
  lemma CreatedBaseIff(wire: Wire, s: Server, key: Key, state: ThreadState, text: string)
    requires Describes(wire, Trust({key}, {}), s.disk, state) && state.path.key == key && state.path.segment > 0
    requires Lookup(s.cache, key) == Some(state) && Matches(s.disk, state) && Path(key, 0) !in s.disk
    ensures var s' := DoOutside(s, OutsideStep(Path(key, 0), text));
      && (forall limit: nat :: Resolve(wire, limit, s', key).outcome == Ok((state, FromCache)))
      && var kept := Use(state.path.segment, Parse(Values(wire, s.disk[state.path].text)).value);
         Choose(Candidates(wire, s'.disk, key)) == kept <==> Inspect(wire, s'.disk, Path(key, 0)).Corrupt?
  {
    hide Parse, Values, Choose;
    var s', j := DoOutside(s, OutsideStep(Path(key, 0), text)), state.path.segment;
    var parsed := Parse(Values(wire, s.disk[state.path].text)).value;
    var cs, cs' := Candidates(wire, s.disk, key), Candidates(wire, s'.disk, key);
    assert forall i :: 0 < i < |cs| ==> cs'[i] == Inspect(wire, s.disk, Path(key, i)) && cs[i] == cs'[i];
    assert cs'[0] == Inspect(wire, s'.disk, Path(key, 0));
    UsedIff(cs', j, parsed);
    assert cs'[j] == Readable(parsed);
  }

  lemma ForgetInv(wire: Wire, t: Trust, s: Server, paths: set<Path>)
    requires ServerInv(wire, t, s)
    ensures ServerInv(wire, t, s.(cache := RemovePaths(s.cache, paths)))
  {
    hide ThreadInv;
    RemovePathsKeepsOrder(s.cache, [], paths);
    forall k: Key ensures ThreadInv(wire, t, s.(cache := RemovePaths(s.cache, paths)), k) {
      assert ThreadInv(wire, t, s, k);
      FrameThread(wire, t, s, s.(cache := RemovePaths(s.cache, paths)), k);
    }
  }

  lemma DropInv(wire: Wire, t: Trust, s: Server, key: Key)
    requires ServerInv(wire, t, s)
    ensures ServerInv(wire, t, s.(turns := s.turns - {key}))
  {
    hide ThreadInv;
    forall k: Key ensures ThreadInv(wire, t, s.(turns := s.turns - {key}), k) {
      assert ThreadInv(wire, t, s, k);
      FrameThread(wire, t, s, s.(turns := s.turns - {key}), k);
    }
  }

  /** What a step must leave alone for the claims to last. */
  ghost predicate StepTrusted(wire: Wire, t: Trust, s: Server, step: Step) {
    && (forall key <- t.sound :: !Disturbs(wire, s, step, key))
    && (forall key <- t.kept :: StepKeepsIds(wire, step, key))
  }

  lemma StepInv(wire: Wire, t: Trust, limit: nat, s: Server, step: Step)
    requires wire.Lossless() && ServerInv(wire, t, s) && StepTrusted(wire, t, s, step)
    ensures ServerInv(wire, t, Next(wire, limit, s, step))
  {
    hide ServerInv;
    match step
    case BeginStep(_, _, _, _, _) => BeginInv(wire, t, limit, s, step);
    case AppendStep(_, _) => AppendInv(wire, t, s, step);
    case FinishStep(_, _, _, _) => FinishInv(wire, t, limit, s, step);
    case DropStep(key) => DropInv(wire, t, s, key);
    case CrashStep(_, _) => CrashInv(wire, t, s, step);
    case OutsideStep(_, _) => OutsideInv(wire, t, s, step);
    case ForgetStep(paths) => ForgetInv(wire, t, s, paths);
  }

  ghost predicate RunTrusted(wire: Wire, limit: nat, t: Trust, steps: seq<Step>) {
    forall n :: 0 <= n < |steps| ==> StepTrusted(wire, t, Run(wire, limit, steps[..n]), steps[n])
  }

  /** The invariant holds after every run. */
  lemma {:induction false} RunInv(wire: Wire, t: Trust, limit: nat, steps: seq<Step>)
    requires wire.Lossless() && RunTrusted(wire, limit, t, steps)
    ensures ServerInv(wire, t, Run(wire, limit, steps))
  {
    if steps == [] {
      assert forall key: Key :: ThreadInv(wire, t, EmptyServer, key);
    } else {
      hide ServerInv, StepTrusted;
      var init := steps[..|steps| - 1];
      assert forall n :: 0 <= n < |init| ==> init[..n] == steps[..n] && init[n] == steps[n];
      RunInv(wire, t, limit, init);
      StepInv(wire, t, limit, Run(wire, limit, init), steps[|steps| - 1]);
    }
  }

  lemma ResolvedKey(wire: Wire, t: Trust, s: Server, key: Key, state: ThreadState)
    requires Resolved(wire, t, s, key, state)
    ensures state.path.key == key
  {
  }
}
