/**
 The persisted thread index (`store/rollout/index.rs`): what is written after a turn and when it is
 accepted instead of reading the whole file.
 */
module ThreadIndexFile {
  import opened Basics
  import opened Text
  import opened Conversation
  import opened ThreadStates
  import opened Reader

  const IndexVersion: nat := 3

  const NanosLimit: nat := 0x1_0000_0000_0000_0000

  /** `PersistedThreadIndex`. Digest texts are represented by the identities they stand for. */
  datatype PersistedIndex = PersistedIndex(
    version: nat, thread: Key, path: Path, format: Format,
    sourceStamp: Stamp, baseStamp: Option<Stamp>,
    lineCount: nat, seqNo: nat, windowId: Option<string>, generation: Option<nat>,
    content: seq<Identity>, contentEventCount: nat,
    eventRefs: map<Identity, seq<nat>>, itemRefs: map<ItemKey, nat>)

  /** `system_time_nanos`: times past 2^64 nanoseconds have no persisted form. */
  function Nanos(modified: Option<nat>): Option<nat> {
    if modified.Some? && modified.value < NanosLimit then modified else None
  }

  function PersistedStamp(stamp: Stamp): Stamp {
    Stamp(stamp.len, Nanos(stamp.modified))
  }

  /** `metadata_stamp` */
  function DiskStamp(disk: Disk, path: Path): Option<Stamp> {
    if path in disk then Some(StampOf(disk[path])) else None
  }

  function IndexOf(disk: Disk, key: Key, state: ThreadState): PersistedIndex
    requires state.path in disk
  {
    var source := StampOf(disk[state.path]);
    var base := if state.path == Path(key, 0) then Some(source) else DiskStamp(disk, Path(key, 0));
    PersistedIndex(
      IndexVersion, key, state.path, state.format,
      PersistedStamp(source),
      if base.Some? then Some(PersistedStamp(base.value)) else None,
      state.lineCount, state.seqNo,
      if state.core.window.Some? then state.core.window.value.windowId else None,
      if state.core.window.Some? then Some(state.core.window.value.generation) else None,
      state.core.content, state.core.contentEventCount, state.core.eventRefs, state.core.itemRefs)
  }

  /** `write_thread_index`: the new index, or `None` when nothing is written and the old one stays. */
  function WriteIndex(disk: Disk, key: Key, state: ThreadState): Option<PersistedIndex> {
    if state.lineCount == 0 || state.path !in disk then None
    else
      var source := StampOf(disk[state.path]);
      if source != state.stamp || !Complete(disk[state.path].text) || Nanos(source.modified).None? then None
      else Some(IndexOf(disk, key, state))
  }

  predicate RefsInRange(refs: seq<nat>, seqNo: nat) {
    refs != [] && forall s <- refs :: 1 <= s <= seqNo
  }

  predicate ValidIndexRefs(index: PersistedIndex) {
    && (forall x <- index.eventRefs :: RefsInRange(index.eventRefs[x], index.seqNo))
    && (forall key <- index.itemRefs :: 1 <= index.itemRefs[key] <= index.seqNo)
  }

  /** `None` when the window fields do not form a window; otherwise the window, if there is one. */
  function IndexWindow(index: PersistedIndex): Option<Option<WindowState>> {
    match (index.windowId, index.generation)
    case (id, Some(generation)) => Some(Some(WindowState(id, generation)))
    case (None, None) => Some(None)
    case (Some(_), None) => None
  }

  function StateOfIndex(index: PersistedIndex, source: Stamp, window: Option<WindowState>): ThreadState {
    ThreadState(index.path, index.format, source, index.lineCount, index.seqNo,
      Core(window, index.content, index.eventRefs, index.itemRefs, index.contentEventCount))
  }

  /** `load_persisted_thread`: the state of an index that still matches the files, or `None`. */
  function LoadIndex(disk: Disk, key: Key, index: PersistedIndex): Option<ThreadState> {
    if index.version != IndexVersion || index.thread != key then None
    else if index.path.key != key || index.path.segment > MaxRecoveredSegments then None
    else if DiskStamp(disk, index.path) != Some(index.sourceStamp) then None
    else if DiskStamp(disk, Path(key, 0)) != index.baseStamp then None
    else if !ValidIndexRefs(index) || IndexWindow(index).None? then None
    else Some(StateOfIndex(index, index.sourceStamp, IndexWindow(index).value))
  }

  /** The window the fields stand for; an id without a generation stands for none. */
  predicate WindowFieldsFit(index: PersistedIndex) {
    index.windowId.Some? ==> index.generation.Some?
  }

  /** A nonempty list of numbers from 1 to the last one. */
  predicate ListsNumbers(refs: seq<nat>, last: nat) {
    |refs| > 0 && forall k :: 0 <= k < |refs| ==> 1 <= refs[k] && refs[k] <= last
  }

  /**
   When an index is accepted: it has version 3, is this thread's, points at one of its eleven candidate files,
   was written for that file and for the base exactly as they are on disk (or as the base is missing), has
   nonempty lists of numbers from 1 to its last one, and window fields that fit. The state is then the index's.
   */
  lemma AcceptedIff(disk: Disk, key: Key, index: PersistedIndex)
    ensures LoadIndex(disk, key, index).Some? <==>
      && index.version == 3 && index.thread == key && index.path.key == key && index.path.segment <= 10
      && index.path in disk && index.sourceStamp.len == |disk[index.path].text|
      && index.sourceStamp.modified == Some(disk[index.path].modified)
      && (Path(key, 0) in disk <==> index.baseStamp.Some?)
      && (index.baseStamp.Some? ==>
           && index.baseStamp.value.len == |disk[Path(key, 0)].text|
           && index.baseStamp.value.modified == Some(disk[Path(key, 0)].modified))
      && (forall x <- index.eventRefs :: ListsNumbers(index.eventRefs[x], index.seqNo))
      && (forall item <- index.itemRefs :: 1 <= index.itemRefs[item] <= index.seqNo)
      && WindowFieldsFit(index)
    ensures LoadIndex(disk, key, index).Some? ==>
      var state := LoadIndex(disk, key, index).value;
      && state.path == index.path && state.format == index.format && state.stamp == index.sourceStamp
      && state.lineCount == index.lineCount && state.seqNo == index.seqNo
      && state.core.window == (if index.generation.Some? then Some(WindowState(index.windowId, index.generation.value))
                               else None)
      && state.core.content == index.content && state.core.contentEventCount == index.contentEventCount
      && state.core.eventRefs == index.eventRefs && state.core.itemRefs == index.itemRefs
  {
    forall x <- index.eventRefs
      ensures RefsInRange(index.eventRefs[x], index.seqNo) == ListsNumbers(index.eventRefs[x], index.seqNo)
    {
      var refs := index.eventRefs[x];
      assert forall k :: 0 <= k < |refs| ==> refs[k] in refs;
    }
  }

  /** An index is written exactly for a nonempty thread whose file is the state's, complete, and has a storable time. */
  lemma WrittenIff(disk: Disk, key: Key, state: ThreadState)
    ensures WriteIndex(disk, key, state).Some? <==>
      && state.lineCount != 0 && state.path in disk
      && state.stamp == Stamp(|disk[state.path].text|, Some(disk[state.path].modified))
      && Complete(disk[state.path].text) && disk[state.path].modified < 0x1_0000_0000_0000_0000
  {
  }

  /** The validation loops of `load_persisted_thread`. */
  method ValidateRefs(index: PersistedIndex) returns (valid: bool)
    ensures valid == ValidIndexRefs(index)
  {
    var todo := index.eventRefs.Keys;
    while todo != {}
      invariant todo <= index.eventRefs.Keys
      invariant forall x <- index.eventRefs.Keys - todo :: RefsInRange(index.eventRefs[x], index.seqNo)
      decreases |todo|
    {
      var x :| x in todo;
      if !RefsInRange(index.eventRefs[x], index.seqNo) { return false; }
      todo := todo - {x};
    }
    valid := forall key <- index.itemRefs :: 1 <= index.itemRefs[key] <= index.seqNo;
  }

  /** Lists are not empty and every number lies in 1..seq. */
  predicate ValidRefs(state: ThreadState) {
    && (forall x <- state.core.eventRefs :: RefsInRange(state.core.eventRefs[x], state.seqNo))
    && (forall key <- state.core.itemRefs :: 1 <= state.core.itemRefs[key] <= state.seqNo)
  }

  /**
   The round trip: a state written to the index of its unchanged, complete file is loaded back as the
   same state exactly when its references are in range and the base file's time has a persisted form.
   */
  lemma IndexRoundTrip(disk: Disk, key: Key, state: ThreadState)
    requires state.lineCount != 0 && state.path.key == key && state.path.segment <= MaxRecoveredSegments
    requires state.path in disk && StampOf(disk[state.path]) == state.stamp && Complete(disk[state.path].text)
    requires Nanos(state.stamp.modified).Some?
    ensures WriteIndex(disk, key, state).Some?
    ensures LoadIndex(disk, key, WriteIndex(disk, key, state).value) == Some(state) <==>
      ValidRefs(state) && (Path(key, 0) in disk ==> Nanos(Some(disk[Path(key, 0)].modified)).Some?)
  {
  }

  /** An accepted index speaks about the file as it is now, behind the base as it is now. */
  lemma LoadedMatches(disk: Disk, key: Key, index: PersistedIndex)
    requires LoadIndex(disk, key, index).Some?
    ensures var state := LoadIndex(disk, key, index).value;
      && state.path == index.path && state.path in disk && StampOf(disk[state.path]) == state.stamp
      && DiskStamp(disk, Path(key, 0)) == index.baseStamp
  {
  }

  /** Any stamp change of the source or of the base, including their disappearance, rejects the index. */
  lemma StaleIndexIsRejected(disk: Disk, changed: Disk, key: Key, index: PersistedIndex)
    requires LoadIndex(disk, key, index).Some?
    requires DiskStamp(changed, index.path) != DiskStamp(disk, index.path)
          || DiskStamp(changed, Path(key, 0)) != DiskStamp(disk, Path(key, 0))
    ensures LoadIndex(changed, key, index).None?
  {
  }

  predicate IsNumbered(events: seq<Event>, seqNo: nat) {
    exists e <- events :: e.seqNo == seqNo
  }

  /** Every reference of a state that tracks the file is the number of one of its events. */
  lemma TrackedRefsName(core: Core, events: seq<Event>)
    requires Tracks(core, events)
    ensures forall x <- core.eventRefs, k: nat | k < |core.eventRefs[x]| :: IsNumbered(events, core.eventRefs[x][k])
    ensures forall key <- core.itemRefs :: IsNumbered(events, core.itemRefs[key])
  {
    RebuildListsContentOnly(events);
    forall x <- core.eventRefs, k: nat | k < |core.eventRefs[x]| ensures IsNumbered(events, core.eventRefs[x][k]) {
      RebuildRefsAreWindowSeqs(events, x);
      var tail := events[WindowStart(events)..];
      var i := SeqsOfNames(tail, x, k);
      assert tail[i] in events;
    }
    forall key <- core.itemRefs ensures IsNumbered(events, core.itemRefs[key]) {
      assert Holds(events, core.itemRefs[key], key.kind);
      var i :| 0 <= i < |events| && events[i].seqNo == core.itemRefs[key];
      assert events[i] in events;
    }
  }

  /** Numbers that start at 1 keep every reference of a state that tracks the file in range. */
  lemma TrackedRefsAreValid(state: ThreadState, events: seq<Event>)
    requires Tracks(state.core, events) && state.seqNo == MaxSeq(events)
    requires forall e <- events :: e.seqNo >= 1
    ensures ValidRefs(state)
  {
    hide Tracks;
    assert forall x <- state.core.eventRefs :: state.core.eventRefs[x] != [] by {
      ListsAreNotEmpty(state.core, events);
    }
    TrackedRefsName(state.core, events);
    forall seqNo: nat | IsNumbered(events, seqNo) ensures 1 <= seqNo <= state.seqNo {
      var e :| e in events && e.seqNo == seqNo;
      BoundedByMax(events, e);
    }
  }

  lemma ListsAreNotEmpty(core: Core, events: seq<Event>)
    requires Tracks(core, events)
    ensures forall x <- core.eventRefs :: core.eventRefs[x] != []
  {
    RebuildListsContentOnly(events);
  }

  lemma {:induction false} BoundedByMax(events: seq<Event>, e: Event)
    requires e in events
    ensures e.seqNo <= MaxSeq(events)
  {
    var init := events[..|events| - 1];
    if e != events[|events| - 1] {
      assert e in init;
      BoundedByMax(init, e);
    }
  }
}
