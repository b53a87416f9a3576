/**
 The life of a recorded stream (`service/recording/state.rs`): the activity row and the rollout summary of
 one stream, whatever order the recorder's methods are called in and whatever the storage answers. Saving
 the response session is not part of this model; the driver in `forwarding.rs` is an arbitrary caller.
 */
module Recorder {
  import opened Basics
  import opened Conversation

  datatype Mode = Required | BestEffort

  datatype RowStatus = Streaming | RowSuccess | RowFailed | UsageOnly

  /** What the recorder does that others can see. An update of kind `UsageOnly` leaves the row's status alone. */
  datatype Act = RowInserted(status: RowStatus) | RowUpdated(status: RowStatus) | Published(summary: Status)

  datatype Recording = Recording(
    hasLog: bool, hasWriter: bool, mode: Mode,
    inserted: bool, failed: bool, usageRecorded: bool, rolloutFinalized: bool,
    acts: seq<Act>)

  /** How the storage and the writer answer during one call, and what the stream statistics say. */
  datatype World = World(
    insertOk: bool, updateOk: bool, secondUpdateOk: bool, publishOk: bool, finishOk: bool,
    appends: seq<bool>, completionSeen: bool, finalUsageSeen: bool)

  datatype Call =
    | StartCall(itemOk: bool)
    | ObserveCall(itemOk: bool)
    | EndCall
    | EmptyCall
    | DisconnectCall

  function Act1(s: Recording, ok: bool, act: Act): Recording {
    if ok then s.(acts := s.acts + [act]) else s
  }

  predicate AllAppended(w: World) {
    forall ok <- w.appends :: ok
  }

  /** `final_rollout_status` */
  function FinalStatus(status: Status, appendFailed: bool): Status {
    if appendFailed && status == Completed then Partial else status
  }

  /** `finalize_rollout` */
  function Finalize(s: Recording, w: World, status: Status): Recording {
    if s.rolloutFinalized || !s.hasWriter then s
    else
      var s1 := s.(hasWriter := false);
      var s2 :=
        if w.finishOk && s.inserted && !AllAppended(w) then Act1(s1, w.secondUpdateOk, RowUpdated(RowFailed)) else s1;
      var s3 := if w.finishOk && s.inserted
                then Act1(s2, w.publishOk, Published(FinalStatus(status, !AllAppended(w)))) else s2;
      s3.(rolloutFinalized := true)
  }

  /** `record_stream_error` */
  function RecordError(s: Recording, w: World): Recording {
    Finalize(Act1(s.(failed := true), w.updateOk, RowUpdated(RowFailed)), w, Failed)
  }

  /** `start`: the new state, and whether the caller gets an error. */
  function Start(s: Recording, w: World, itemOk: bool): (Recording, bool) {
    if !s.hasLog then (s, false)
    else
      var s1 := s.(hasLog := false, failed := s.failed || !itemOk);
      if !s.hasWriter then (s1, true)
      else if w.insertOk then
        (Act1(s1, true, RowInserted(if itemOk then Streaming else RowFailed)).(inserted := true), false)
      else if s.mode == Required then (s1, true)
      else (s1.(failed := true), false)
  }

  /** `observe_item` */
  function Observe(s: Recording, w: World, itemOk: bool): Recording {
    var s1 := if s.inserted && !itemOk then (if s.failed then Finalize(s, w, Failed) else RecordError(s, w)) else s;
    if s1.inserted && !s1.failed && !s1.usageRecorded && w.finalUsageSeen
    then Act1(s1.(usageRecorded := true), w.updateOk, RowUpdated(UsageOnly))
    else s1
  }

  /** `record_stream_end` */
  function End(s: Recording, w: World): Recording {
    if !s.inserted then s
    else if s.failed then Finalize(s, w, Failed)
    else if !w.completionSeen then RecordError(s, w)
    else Finalize(Act1(s, w.updateOk, RowUpdated(RowSuccess)), w, Completed)
  }

  /** `record_empty_stream` */
  function Empty(s: Recording, w: World): (Recording, bool) {
    if !s.hasLog then (s, false)
    else
      var s1 := s.(hasLog := false, hasWriter := false);
      if !s.hasWriter || !w.finishOk then (s1, s.mode == Required)
      else if w.insertOk then
        (s1.(acts := s1.acts + [RowInserted(RowFailed), Published(Failed)], inserted := true,
           failed := true, rolloutFinalized := true), false)
      else (s1, s.mode == Required)
  }

  /** `record_downstream_disconnect` */
  function Disconnect(s: Recording, w: World): Recording {
    var s1 := if s.failed then s else Act1(s.(failed := true), w.updateOk, RowUpdated(RowFailed));
    Finalize(s1, w, Failed)
  }

  function Step(s: Recording, w: World, call: Call): Recording {
    match call
    case StartCall(itemOk) => Start(s, w, itemOk).0
    case ObserveCall(itemOk) => Observe(s, w, itemOk)
    case EndCall => End(s, w)
    case EmptyCall => Empty(s, w).0
    case DisconnectCall => Disconnect(s, w)
  }

  function Fresh(mode: Mode, hasWriter: bool): Recording {
    Recording(true, hasWriter, mode, false, false, false, false, [])
  }

  function Run(s: Recording, calls: seq<(World, Call)>): Recording {
    if calls == [] then s
    else
      var last := calls[|calls| - 1];
      Step(Run(s, calls[..|calls| - 1]), last.0, last.1)
  }

  // ----- Answers to the caller -----

  /**
   `start` answers an error exactly when the first item arrives and the stream cannot be recorded at all: there
   is no writer, or the row cannot be inserted and recording is required. Otherwise the first item inserts the
   row, or, best effort, fails the stream silently.
   */
  lemma StartMeaning(s: Recording, w: World, itemOk: bool)
    ensures var (s', error) := Start(s, w, itemOk);
      && (error <==> s.hasLog && (!s.hasWriter || (!w.insertOk && s.mode == Required)))
      && (s.hasLog && s.hasWriter && w.insertOk ==>
           s'.inserted && s'.acts == s.acts + [RowInserted(if itemOk then Streaming else RowFailed)])
      && (!(s.hasLog && s.hasWriter && w.insertOk) ==> s'.inserted == s.inserted && s'.acts == s.acts)
      && (s.hasLog && !error && (!itemOk || !w.insertOk) ==> s'.failed)
      && (s.hasLog && itemOk && w.insertOk ==> s'.failed == s.failed)
  {
  }

  /** An empty stream fails its row and its summary; when that cannot be stored, only required recording says so. */
  lemma EmptyMeaning(s: Recording, w: World)
    ensures var (s', error) := Empty(s, w);
      var stored := s.hasLog && s.hasWriter && w.finishOk && w.insertOk;
      && (error <==> s.hasLog && s.mode == Required && !stored)
      && s'.acts == s.acts + (if stored then [RowInserted(RowFailed), Published(Failed)] else [])
      && (stored ==> s'.inserted && s'.failed)
  {
    assert s.acts + [] == s.acts;
  }

  // ----- The laws -----

  function PublishedCount(acts: seq<Act>): nat {
    if acts == [] then 0
    else PublishedCount(acts[..|acts| - 1]) + (if acts[|acts| - 1].Published? then 1 else 0)
  }

  lemma CountSnoc(acts: seq<Act>, act: Act)
    ensures PublishedCount(acts + [act]) == PublishedCount(acts) + (if act.Published? then 1 else 0)
  {
    assert (acts + [act])[..|acts|] == acts;
  }

  /** A published summary has used up the writer. */
  predicate OncePublished(s: Recording) {
    PublishedCount(s.acts) + (if s.hasWriter then 1 else 0) <= 1
  }

  /**
   A lawful change: acts are only added, failure is permanent, the writer publishes no second summary, and
   success is announced only where it may be, a Completed summary only when every event was appended.
   */
  predicate Lawful(s: Recording, s': Recording, w: World, maySucceed: bool) {
    && s.acts <= s'.acts
    && (s.failed ==> s'.failed)
    && (OncePublished(s) ==> OncePublished(s'))
    && (RowUpdated(RowSuccess) in s'.acts[|s.acts|..] ==> maySucceed)
    && (Published(Completed) in s'.acts[|s.acts|..] ==> maySucceed && AllAppended(w))
  }

  lemma LawfulTrans(a: Recording, b: Recording, c: Recording, w: World, maySucceed: bool)
    requires Lawful(a, b, w, maySucceed) && Lawful(b, c, w, maySucceed)
    ensures Lawful(a, c, w, maySucceed)
  {
    assert c.acts[|a.acts|..] == b.acts[|a.acts|..] + c.acts[|b.acts|..];
  }

  lemma ActIsLawful(s: Recording, w: World, ok: bool, act: Act, maySucceed: bool)
    requires !act.Published? && (act == RowUpdated(RowSuccess) ==> maySucceed)
    ensures Lawful(s, Act1(s, ok, act), w, maySucceed)
  {
    CountSnoc(s.acts, act);
    assert (s.acts + [act])[|s.acts|..] == [act];
    assert s.acts[|s.acts|..] == [];
  }

  lemma PublishIsLawful(s: Recording, w: World, ok: bool, status: Status, maySucceed: bool)
    requires s.hasWriter && (status == Completed ==> maySucceed && AllAppended(w))
    ensures Lawful(s, Act1(s, ok, Published(status)).(hasWriter := false), w, maySucceed)
  {
    CountSnoc(s.acts, Published(status));
    assert (s.acts + [Published(status)])[|s.acts|..] == [Published(status)];
    assert s.acts[|s.acts|..] == [];
  }

  lemma FinalizeIsLawful(s: Recording, w: World, status: Status, maySucceed: bool)
    requires status == Completed ==> maySucceed
    ensures Lawful(s, Finalize(s, w, status), w, maySucceed)
  {
    hide Lawful, Finalize, Act1;
    SameIsLawful(s, s, w, maySucceed);
    FinalizeParts(s, w, status);
    if !s.rolloutFinalized && s.hasWriter {
      var done := Finalize(s, w, status);
      if w.finishOk && s.inserted {
        var s1 := if AllAppended(w) then s else Act1(s, w.secondUpdateOk, RowUpdated(RowFailed));
        ActIsLawful(s, w, w.secondUpdateOk, RowUpdated(RowFailed), maySucceed);
        var final := FinalStatus(status, !AllAppended(w));
        var s2 := Act1(s1, w.publishOk, Published(final)).(hasWriter := false);
        PublishIsLawful(s1, w, w.publishOk, final, maySucceed);
        LawfulTrans(s, s1, s2, w, maySucceed);
        SameIsLawful(s2, done, w, maySucceed);
        LawfulTrans(s, s2, done, w, maySucceed);
      } else {
        SameIsLawful(s, done, w, maySucceed);
      }
    }
  }

  lemma FinalizeParts(s: Recording, w: World, status: Status)
    ensures var s1 := if AllAppended(w) then s else Act1(s, w.secondUpdateOk, RowUpdated(RowFailed));
      var s2 := Act1(s1, w.publishOk, Published(FinalStatus(status, !AllAppended(w)))).(hasWriter := false);
      && s1.hasWriter == s.hasWriter
      && Finalize(s, w, status) ==
        if s.rolloutFinalized || !s.hasWriter then s
        else if w.finishOk && s.inserted then s2.(rolloutFinalized := true)
        else s.(hasWriter := false, rolloutFinalized := true)
  {
    hide AllAppended, FinalStatus;
  }

  /** A call may announce success only at the end of a stream that was inserted, did not fail and completed. */
  predicate MaySucceed(s: Recording, w: World, call: Call) {
    call == EndCall && s.inserted && !s.failed && w.completionSeen
  }

  lemma ErrorIsLawful(s: Recording, w: World, maySucceed: bool)
    ensures Lawful(s, RecordError(s, w), w, maySucceed)
  {
    hide Finalize, Act1;
    var s0 := s.(failed := true);
    var s1 := Act1(s0, w.updateOk, RowUpdated(RowFailed));
    assert Lawful(s, s0, w, maySucceed) by { assert s.acts[|s.acts|..] == []; }
    ActIsLawful(s0, w, w.updateOk, RowUpdated(RowFailed), maySucceed);
    FinalizeIsLawful(s1, w, Failed, maySucceed);
    LawfulTrans(s, s0, s1, w, maySucceed);
    LawfulTrans(s, s1, RecordError(s, w), w, maySucceed);
  }

  lemma EmptyIsLawful(s: Recording, w: World)
    ensures Lawful(s, Empty(s, w).0, w, false)
  {
    var a := s.acts + [RowInserted(RowFailed)];
    CountSnoc(s.acts, RowInserted(RowFailed));
    CountSnoc(a, Published(Failed));
    assert s.acts + [RowInserted(RowFailed), Published(Failed)] == a + [Published(Failed)];
    assert (a + [Published(Failed)])[|s.acts|..] == [RowInserted(RowFailed), Published(Failed)];
    assert s.acts[|s.acts|..] == [];
  }

  /** Every call is lawful. */
  lemma StepLaw(s: Recording, w: World, call: Call)
    ensures Lawful(s, Step(s, w, call), w, MaySucceed(s, w, call))
  {
    hide Finalize, Empty, RecordError, Lawful;
    var m := MaySucceed(s, w, call);
    SameIsLawful(s, s, w, m);
    match call
    case StartCall(itemOk) => StartIsLawful(s, w, itemOk);
    case ObserveCall(itemOk) =>
      var s1 := if s.inserted && !itemOk then (if s.failed then Finalize(s, w, Failed) else RecordError(s, w)) else s;
      FinalizeIsLawful(s, w, Failed, m);
      ErrorIsLawful(s, w, m);
      var s2 := s1.(usageRecorded := true);
      SameIsLawful(s1, s2, w, m);
      ActIsLawful(s2, w, w.updateOk, RowUpdated(UsageOnly), m);
      LawfulTrans(s, s1, s2, w, m);
      LawfulTrans(s, s2, Act1(s2, w.updateOk, RowUpdated(UsageOnly)), w, m);
    case EndCall =>
      FinalizeIsLawful(s, w, Failed, m);
      ErrorIsLawful(s, w, m);
      if m {
        var s1 := Act1(s, w.updateOk, RowUpdated(RowSuccess));
        ActIsLawful(s, w, w.updateOk, RowUpdated(RowSuccess), m);
        FinalizeIsLawful(s1, w, Completed, m);
        LawfulTrans(s, s1, Finalize(s1, w, Completed), w, m);
      }
    case EmptyCall => EmptyIsLawful(s, w);
    case DisconnectCall =>
      var s0 := s.(failed := true);
      var s1 := Act1(s0, w.updateOk, RowUpdated(RowFailed));
      SameIsLawful(s, s0, w, m);
      ActIsLawful(s0, w, w.updateOk, RowUpdated(RowFailed), m);
      LawfulTrans(s, s0, s1, w, m);
      FinalizeIsLawful(s, w, Failed, m);
      FinalizeIsLawful(s1, w, Failed, m);
      LawfulTrans(s, s1, Finalize(s1, w, Failed), w, m);
  }

  lemma SameIsLawful(s: Recording, s': Recording, w: World, maySucceed: bool)
    requires s'.acts == s.acts && (s.failed ==> s'.failed)
    requires s'.hasWriter ==> s.hasWriter
    ensures Lawful(s, s', w, maySucceed)
  {
    assert s.acts[|s.acts|..] == [];
  }

  lemma StartIsLawful(s: Recording, w: World, itemOk: bool)
    ensures Lawful(s, Start(s, w, itemOk).0, w, false)
  {
    hide Lawful, Act1;
    var s1 := s.(hasLog := false, failed := s.failed || !itemOk);
    SameIsLawful(s, s, w, false);
    SameIsLawful(s, s1, w, false);
    SameIsLawful(s, s1.(failed := true), w, false);
    var act := RowInserted(if itemOk then Streaming else RowFailed);
    var s2 := Act1(s1, true, act);
    ActIsLawful(s1, w, true, act, false);
    LawfulTrans(s, s1, s2, w, false);
    InsertedIsLawful(s, s2, w);
  }

  lemma InsertedIsLawful(s: Recording, s': Recording, w: World)
    requires Lawful(s, s', w, false)
    ensures Lawful(s, s'.(inserted := true), w, false)
  {
  }

  /** The summary of a stream is published at most once, whatever is called in whatever order. */
  lemma {:induction false} PublishedAtMostOnce(mode: Mode, hasWriter: bool, calls: seq<(World, Call)>)
    ensures OncePublished(Run(Fresh(mode, hasWriter), calls))
    ensures PublishedCount(Run(Fresh(mode, hasWriter), calls).acts) <= 1
  {
    if calls == [] {
    } else {
      var n := |calls| - 1;
      PublishedAtMostOnce(mode, hasWriter, calls[..n]);
      hide Step, Finalize;
      StepLaw(Run(Fresh(mode, hasWriter), calls[..n]), calls[n].0, calls[n].1);
    }
  }

  /**
   Once a stream has failed, no later call marks its row as success or publishes a Completed summary; and
   a Completed summary is only ever published for a stream whose completion was seen and whose events were
   all appended.
   */
  lemma {:induction false} FailureIsFinal(s: Recording, calls: seq<(World, Call)>)
    requires s.failed
    ensures var acts := Run(s, calls).acts;
      && Run(s, calls).failed && s.acts <= acts
      && RowUpdated(RowSuccess) !in acts[|s.acts|..] && Published(Completed) !in acts[|s.acts|..]
  {
    if calls == [] {
    } else {
      hide Step;
      var n := |calls| - 1;
      var before := Run(s, calls[..n]);
      FailureIsFinal(s, calls[..n]);
      StepLaw(before, calls[n].0, calls[n].1);
      var after := Step(before, calls[n].0, calls[n].1);
      assert after.acts[|s.acts|..] == before.acts[|s.acts|..] + after.acts[|before.acts|..];
    }
  }

  /** The Completed summary is out behind call `k` and was not before it. */
  predicate Publishes(mode: Mode, hasWriter: bool, calls: seq<(World, Call)>, k: nat)
    requires k < |calls|
  {
    && Published(Completed) !in Run(Fresh(mode, hasWriter), calls[..k]).acts
    && Published(Completed) in Run(Fresh(mode, hasWriter), calls[..k + 1]).acts
  }

  /** An end of a stream whose completion was seen, with every event appended. */
  predicate IsGoodEnd(call: (World, Call)) {
    call.1 == EndCall && call.0.completionSeen && AllAppended(call.0)
  }

  lemma PublishesInPrefix(mode: Mode, hasWriter: bool, calls: seq<(World, Call)>, n: nat, k: nat)
    requires k < n <= |calls|
    ensures Publishes(mode, hasWriter, calls[..n], k) == Publishes(mode, hasWriter, calls, k)
  {
    hide Run;
    assert calls[..n][..k] == calls[..k] && calls[..n][..k + 1] == calls[..k + 1];
  }

  lemma PublishesLast(mode: Mode, hasWriter: bool, calls: seq<(World, Call)>)
    requires calls != [] && Published(Completed) in Run(Fresh(mode, hasWriter), calls).acts
    requires Published(Completed) !in Run(Fresh(mode, hasWriter), calls[..|calls| - 1]).acts
    ensures Publishes(mode, hasWriter, calls, |calls| - 1) && IsGoodEnd(calls[|calls| - 1])
  {
    hide Step;
    var n := |calls| - 1;
    var before, after := Run(Fresh(mode, hasWriter), calls[..n]), Run(Fresh(mode, hasWriter), calls);
    StepLaw(before, calls[n].0, calls[n].1);
    assert calls[..n + 1] == calls;
    assert after.acts == before.acts + after.acts[|before.acts|..];
  }

  /** The call that publishes a Completed summary ends a stream whose completion was seen and that was kept whole. */
  lemma {:induction false} CompletedIsEarned(mode: Mode, hasWriter: bool, calls: seq<(World, Call)>)
    requires Published(Completed) in Run(Fresh(mode, hasWriter), calls).acts
    ensures exists k :: 0 <= k < |calls| && Publishes(mode, hasWriter, calls, k) && IsGoodEnd(calls[k])
  {
    hide Step, Publishes, IsGoodEnd;
    if calls == [] {
    } else {
      var n := |calls| - 1;
      if Published(Completed) in Run(Fresh(mode, hasWriter), calls[..n]).acts {
        CompletedIsEarned(mode, hasWriter, calls[..n]);
        var k :| 0 <= k < n && Publishes(mode, hasWriter, calls[..n], k) && IsGoodEnd(calls[..n][k]);
        PublishesInPrefix(mode, hasWriter, calls, n, k);
      } else {
        PublishesLast(mode, hasWriter, calls);
      }
    }
  }

  // ----- The row and the summary -----

  /** The status the row shows after these acts. An update finds no row before the insertion. */
  function RowStatusOf(acts: seq<Act>): Option<RowStatus> {
    if acts == [] then None
    else
      var before := RowStatusOf(acts[..|acts| - 1]);
      match acts[|acts| - 1]
      case RowInserted(status) => Some(status)
      case RowUpdated(status) => if status == UsageOnly || before == None then before else Some(status)
      case Published(_) => before
  }

  function LastSummary(acts: seq<Act>): Option<Status> {
    if acts == [] then None
    else
      match acts[|acts| - 1]
      case Published(summary) => Some(summary)
      case _ => LastSummary(acts[..|acts| - 1])
  }

  lemma RowSnoc(acts: seq<Act>, act: Act)
    ensures RowStatusOf(acts + [act]) ==
      match act
      case RowInserted(status) => Some(status)
      case RowUpdated(status) =>
        if status == UsageOnly || RowStatusOf(acts) == None then RowStatusOf(acts) else Some(status)
      case Published(_) => RowStatusOf(acts)
    ensures LastSummary(acts + [act]) == if act.Published? then Some(act.summary) else LastSummary(acts)
  {
    assert (acts + [act])[..|acts|] == acts;
  }

  /** The row is a success exactly when the summary is Completed. */
  predicate Agrees(s: Recording) {
    RowStatusOf(s.acts) == Some(RowSuccess) <==> LastSummary(s.acts) == Some(Completed)
  }

  predicate AllOk(w: World) {
    w.insertOk && w.updateOk && w.secondUpdateOk && w.publishOk && w.finishOk
  }

  /** What every run with succeeding storage keeps. */
  predicate RowInv(s: Recording) {
    && (s.hasWriter ==> !s.rolloutFinalized && LastSummary(s.acts) == None)
    && (s.inserted <==> RowStatusOf(s.acts).Some?)
    && (s.inserted ==> !s.hasLog)
    && (s.inserted && s.failed ==> RowStatusOf(s.acts) == Some(RowFailed))
    && (!s.inserted && s.failed ==> !s.hasWriter)
    && (s.inserted && s.hasWriter ==> RowStatusOf(s.acts) != Some(RowSuccess))
  }

  /** How one finishing touches row and summary. */
  lemma FinalizeEffect(s: Recording, w: World, status: Status)
    requires AllOk(w)
    ensures var s' := Finalize(s, w, status);
      var live := s.hasWriter && !s.rolloutFinalized;
      && s'.inserted == s.inserted && s'.failed == s.failed && s'.hasLog == s.hasLog
      && s'.hasWriter == (s.hasWriter && s.rolloutFinalized)
      && RowStatusOf(s'.acts) == (if live && s.inserted && !AllAppended(w) && RowStatusOf(s.acts).Some?
           then Some(RowFailed) else RowStatusOf(s.acts))
      && LastSummary(s'.acts)
           == (if live && s.inserted then Some(FinalStatus(status, !AllAppended(w))) else LastSummary(s.acts))
  {
    RowSnoc(s.acts, RowUpdated(RowFailed));
    RowSnoc(s.acts, Published(FinalStatus(status, !AllAppended(w))));
    RowSnoc(s.acts + [RowUpdated(RowFailed)], Published(FinalStatus(status, !AllAppended(w))));
  }

  /** How one update touches row and summary. */
  lemma UpdateEffect(s: Recording, status: RowStatus)
    ensures var acts := Act1(s, true, RowUpdated(status)).acts;
      && LastSummary(acts) == LastSummary(s.acts)
      && RowStatusOf(acts)
           == (if status == UsageOnly || RowStatusOf(s.acts) == None then RowStatusOf(s.acts) else Some(status))
  {
    RowSnoc(s.acts, RowUpdated(status));
  }

  lemma StartKeepsRow(s: Recording, w: World, itemOk: bool)
    requires RowInv(s) && AllOk(w)
    ensures RowInv(Start(s, w, itemOk).0) && (Agrees(s) ==> Agrees(Start(s, w, itemOk).0))
  {
    RowSnoc(s.acts, RowInserted(if itemOk then Streaming else RowFailed));
  }

  lemma EmptyKeepsRow(s: Recording, w: World)
    requires RowInv(s) && AllOk(w)
    ensures RowInv(Empty(s, w).0) && (Agrees(s) ==> Agrees(Empty(s, w).0))
  {
    var a := s.acts + [RowInserted(RowFailed)];
    RowSnoc(s.acts, RowInserted(RowFailed));
    RowSnoc(a, Published(Failed));
    assert s.acts + [RowInserted(RowFailed), Published(Failed)] == a + [Published(Failed)];
  }

  lemma ErrorKeepsRow(s: Recording, w: World)
    requires RowInv(s) && AllOk(w) && !s.failed
    ensures var s' := RecordError(s, w);
      && RowInv(s') && (s.inserted ==> RowStatusOf(s'.acts) == Some(RowFailed))
      && (!s.inserted ==> RowStatusOf(s'.acts) == None)
      && LastSummary(s'.acts) == (if s.hasWriter && s.inserted then Some(Failed) else LastSummary(s.acts))
  {
    hide Finalize, Act1, RowStatusOf, LastSummary;
    var s1 := s.(failed := true);
    var s2 := Act1(s1, w.updateOk, RowUpdated(RowFailed));
    UpdateEffect(s1, RowFailed);
    Act1Fields(s1, RowUpdated(RowFailed));
    FinalizeEffect(s2, w, Failed);
  }

  lemma Act1Fields(s: Recording, act: Act)
    ensures Act1(s, true, act) == s.(acts := s.acts + [act])
  {
  }

  lemma FailedKeepsRow(s: Recording, w: World)
    requires RowInv(s) && AllOk(w) && s.failed
    ensures var s' := Finalize(s, w, Failed);
      && RowInv(s') && RowStatusOf(s'.acts) == RowStatusOf(s.acts)
      && LastSummary(s'.acts) == (if s.hasWriter && s.inserted then Some(Failed) else LastSummary(s.acts))
  {
    hide Finalize, RowStatusOf, LastSummary;
    FinalizeEffect(s, w, Failed);
  }

  lemma SuccessRow(s: Recording, w: World)
    requires RowInv(s) && AllOk(w) && !s.failed && s.inserted
    ensures var s' := Finalize(Act1(s, w.updateOk, RowUpdated(RowSuccess)), w, Completed);
      && RowInv(s')
      && RowStatusOf(s'.acts) == Some(if s.hasWriter && !AllAppended(w) then RowFailed else RowSuccess)
      && LastSummary(s'.acts)
           == (if s.hasWriter then Some(FinalStatus(Completed, !AllAppended(w))) else LastSummary(s.acts))
  {
    hide Finalize, Act1, RowStatusOf, LastSummary;
    var s1 := Act1(s, w.updateOk, RowUpdated(RowSuccess));
    UpdateEffect(s, RowSuccess);
    Act1Fields(s, RowUpdated(RowSuccess));
    FinalizeEffect(s1, w, Completed);
  }

  /** The calls that set row and summary apart once the writer is gone and the stream has not failed. */
  predicate SetsApart(s: Recording, w: World, call: Call) {
    && s.inserted && !s.hasWriter && !s.failed
    && var completed := LastSummary(s.acts) == Some(Completed);
       match call
       case ObserveCall(itemOk) => !itemOk && completed
       case EndCall => w.completionSeen != completed
       case DisconnectCall => completed
       case _ => false
  }

  /**
   Row and summary, for every call on a state of a run with succeeding storage: a call keeps them in
   agreement exactly when it does not set them apart.
   */
  lemma StepKeepsRow(s: Recording, w: World, call: Call)
    requires RowInv(s) && AllOk(w)
    ensures RowInv(Step(s, w, call))
    ensures Agrees(s) ==> (Agrees(Step(s, w, call)) <==> !SetsApart(s, w, call))
  {
    hide RowStatusOf, LastSummary, Finalize, RecordError, Start, Empty, Act1;
    match call
    case StartCall(itemOk) => StartKeepsRow(s, w, itemOk);
    case EmptyCall => EmptyKeepsRow(s, w);
    case ObserveCall(itemOk) => ObserveKeepsRow(s, w, itemOk);
    case EndCall =>
      if s.inserted {
        if s.failed { FailedKeepsRow(s, w); }
        else if w.completionSeen { SuccessRow(s, w); }
        else { ErrorKeepsRow(s, w); }
      }
    case DisconnectCall =>
      DisconnectIsError(s, w);
      if s.failed { FailedKeepsRow(s, w); } else { ErrorKeepsRow(s, w); }
  }

  lemma DisconnectIsError(s: Recording, w: World)
    ensures Disconnect(s, w) == if s.failed then Finalize(s, w, Failed) else RecordError(s, w)
  {
  }

  lemma ObserveKeepsRow(s: Recording, w: World, itemOk: bool)
    requires RowInv(s) && AllOk(w)
    ensures RowInv(Observe(s, w, itemOk))
    ensures Agrees(s) ==> (Agrees(Observe(s, w, itemOk)) <==> !SetsApart(s, w, ObserveCall(itemOk)))
  {
    hide RowStatusOf, LastSummary, Finalize, RecordError, Act1;
    if s.inserted && !itemOk {
      if s.failed { FailedKeepsRow(s, w); } else { ErrorKeepsRow(s, w); }
      ErrorFails(s, w);
    } else {
      var s1 := s.(usageRecorded := true);
      UpdateEffect(s1, UsageOnly);
      Act1Fields(s1, RowUpdated(UsageOnly));
    }
  }

  lemma ErrorFails(s: Recording, w: World)
    ensures RecordError(s, w).failed && Finalize(s, w, Failed).failed == s.failed
  {
  }

  predicate OkCalls(calls: seq<(World, Call)>) {
    forall k :: 0 <= k < |calls| ==> AllOk(calls[k].0)
  }

  lemma {:induction false} RunKeepsRow(mode: Mode, hasWriter: bool, calls: seq<(World, Call)>)
    requires OkCalls(calls)
    ensures RowInv(Run(Fresh(mode, hasWriter), calls))
  {
    if calls == [] {
    } else {
      hide Step, RowInv, AllOk;
      var n := |calls| - 1;
      RunKeepsRow(mode, hasWriter, calls[..n]);
      StepKeepsRow(Run(Fresh(mode, hasWriter), calls[..n]), calls[n].0, calls[n].1);
    }
  }

  /**
   In every run with succeeding storage, a call made while row and summary agree keeps them in agreement
   exactly when it is not one of these, on an inserted stream that has not failed and has no live writer: an
   end whose completion differs from the summary's, an item error or a disconnect after a Completed summary.
   */
  lemma AgreementIff(mode: Mode, hasWriter: bool, calls: seq<(World, Call)>, w: World, call: Call)
    requires OkCalls(calls) && AllOk(w) && Agrees(Run(Fresh(mode, hasWriter), calls))
    ensures var s := Run(Fresh(mode, hasWriter), calls);
      Agrees(Step(s, w, call)) <==> !SetsApart(s, w, call)
  {
    hide Step, RowInv, Agrees, SetsApart;
    RunKeepsRow(mode, hasWriter, calls);
    StepKeepsRow(Run(Fresh(mode, hasWriter), calls), w, call);
  }

  lemma RunLast(s: Recording, calls: seq<(World, Call)>)
    requires calls != []
    ensures var n := |calls| - 1;
      Run(s, calls) == Step(Run(s, calls[..n]), calls[n].0, calls[n].1)
    ensures Run(s, []) == s
  {
    hide Step;
  }

  /** A run without such calls ends in agreement. */
  lemma {:induction false} RunAgrees(mode: Mode, hasWriter: bool, calls: seq<(World, Call)>)
    requires OkCalls(calls)
    requires forall k :: 0 <= k < |calls| ==>
      !SetsApart(Run(Fresh(mode, hasWriter), calls[..k]), calls[k].0, calls[k].1)
    ensures Agrees(Run(Fresh(mode, hasWriter), calls))
  {
    if calls == [] {
    } else {
      var n := |calls| - 1;
      RunLast(Fresh(mode, hasWriter), calls);
      hide Step, Agrees, SetsApart, AllOk, Run, Fresh;
      assert forall k :: 0 <= k < n ==> calls[..n][..k] == calls[..k] && calls[..n][k] == calls[k];
      RunAgrees(mode, hasWriter, calls[..n]);
      AgreementIff(mode, hasWriter, calls[..n], calls[n].0, calls[n].1);
    }
  }

  /**
   In every run with succeeding storage, the end of an inserted stream with a live writer publishes a summary
   and leaves the row successful exactly when the summary is Completed, which is exactly when the stream had
   not failed, its completion was seen and every event was appended.
   */
  lemma RowMatchesSummary(mode: Mode, hasWriter: bool, calls: seq<(World, Call)>, w: World)
    requires OkCalls(calls) && AllOk(w)
    requires Run(Fresh(mode, hasWriter), calls).inserted && Run(Fresh(mode, hasWriter), calls).hasWriter
    ensures var s := Run(Fresh(mode, hasWriter), calls);
      var acts := End(s, w).acts;
      && LastSummary(acts).Some? && Agrees(End(s, w))
      && (LastSummary(acts) == Some(Completed) <==> !s.failed && w.completionSeen && AllAppended(w))
  {
    hide RowStatusOf, LastSummary, Finalize, RecordError, Act1, Run;
    var s := Run(Fresh(mode, hasWriter), calls);
    RunKeepsRow(mode, hasWriter, calls);
    if s.failed { FailedKeepsRow(s, w); }
    else if w.completionSeen { SuccessRow(s, w); }
    else { ErrorKeepsRow(s, w); }
  }

  /**
   The smallest run in which row and summary part: the appends of the first end fail, so the summary is
   Partial and the row failed; a second end finds no writer and turns the row back to success.
   */
  lemma SecondEndOverwritesRow(first: World, second: World)
    requires AllOk(first) && AllOk(second) && first.completionSeen && second.completionSeen && !AllAppended(first)
    ensures var started := Run(Fresh(Required, true), [(first, StartCall(true))]);
      var once, twice := End(started, first), End(End(started, first), second);
      && RowStatusOf(once.acts) == Some(RowFailed) && LastSummary(once.acts) == Some(Partial)
      && RowStatusOf(twice.acts) == Some(RowSuccess) && LastSummary(twice.acts) == Some(Partial)
      && SetsApart(once, second, EndCall)
  {
    hide RowStatusOf, LastSummary, Finalize;
    var calls := [(first, StartCall(true))];
    assert calls[..0] == [];
    var started := Run(Fresh(Required, true), calls);
    assert calls[0] == (first, StartCall(true)) && Run(Fresh(Required, true), []) == Fresh(Required, true);
    assert started == Start(Fresh(Required, true), first, true).0;
    RunKeepsRow(Required, true, calls);
    SuccessRow(started, first);
    var once := End(started, first);
    FinalizeFields(Act1(started, true, RowUpdated(RowSuccess)), first, Completed);
    SuccessRow(once, second);
  }

  lemma FinalizeFields(s: Recording, w: World, status: Status)
    requires s.hasWriter && !s.rolloutFinalized
    ensures var s' := Finalize(s, w, status); !s'.hasWriter && s'.inserted == s.inserted && s'.failed == s.failed
  {
  }

  // ----- The row is inserted once, its usage recorded once -----

  function ActCount(acts: seq<Act>, usage: bool): nat {
    if acts == [] then 0
    else
      var act := acts[|acts| - 1];
      ActCount(acts[..|acts| - 1], usage)
      + (if (if usage then act == RowUpdated(UsageOnly) else act.RowInserted?) then 1 else 0)
  }

  lemma ActSnoc(acts: seq<Act>, act: Act, usage: bool)
    ensures ActCount(acts + [act], usage) ==
      ActCount(acts, usage) + (if (if usage then act == RowUpdated(UsageOnly) else act.RowInserted?) then 1 else 0)
  {
    assert (acts + [act])[..|acts|] == acts;
  }

  /** The log is used up by the insertion, the flag by the usage update. */
  predicate CountedOnce(s: Recording) {
    && ActCount(s.acts, false) + (if s.hasLog then 1 else 0) <= 1
    && ActCount(s.acts, true) + (if s.usageRecorded then 0 else 1) <= 1
  }

  lemma FinalizeCounts(s: Recording, w: World, status: Status, usage: bool)
    ensures var s' := Finalize(s, w, status);
      ActCount(s'.acts, usage) == ActCount(s.acts, usage) && s'.hasLog == s.hasLog
        && s'.usageRecorded == s.usageRecorded
  {
    var final := Published(FinalStatus(status, !AllAppended(w)));
    ActSnoc(s.acts, RowUpdated(RowFailed), usage);
    ActSnoc(s.acts, final, usage);
    ActSnoc(s.acts + [RowUpdated(RowFailed)], final, usage);
  }

  lemma UpdateCounts(s: Recording, ok: bool, status: RowStatus, usage: bool)
    requires status != UsageOnly
    ensures ActCount(Act1(s, ok, RowUpdated(status)).acts, usage) == ActCount(s.acts, usage)
  {
    ActSnoc(s.acts, RowUpdated(status), usage);
  }

  lemma StepCountsOnce(s: Recording, w: World, call: Call)
    requires CountedOnce(s)
    ensures CountedOnce(Step(s, w, call))
  {
    hide Finalize, ActCount;
    forall r: Recording, status, usage | status != UsageOnly
      ensures ActCount(Act1(r, w.updateOk, RowUpdated(status)).acts, usage) == ActCount(r.acts, usage)
    {
      UpdateCounts(r, w.updateOk, status, usage);
    }
    forall r: Recording, status, usage
      ensures var r' := Finalize(r, w, status);
        ActCount(r'.acts, usage) == ActCount(r.acts, usage) && r'.hasLog == r.hasLog
          && r'.usageRecorded == r.usageRecorded
    {
      FinalizeCounts(r, w, status, usage);
    }
    match call
    case StartCall(itemOk) => StartCountsOnce(s, w, itemOk);
    case ObserveCall(itemOk) =>
      var s1 := if s.inserted && !itemOk then (if s.failed then Finalize(s, w, Failed) else RecordError(s, w)) else s;
      ActSnoc(s1.acts, RowUpdated(UsageOnly), false);
      ActSnoc(s1.acts, RowUpdated(UsageOnly), true);
    case EmptyCall => EmptyCountsOnce(s, w);
    case _ =>
  }

  lemma StartCountsOnce(s: Recording, w: World, itemOk: bool)
    requires CountedOnce(s)
    ensures CountedOnce(Start(s, w, itemOk).0)
  {
    hide ActCount;
    StartMeaning(s, w, itemOk);
    StartUsesLog(s, w, itemOk);
    hide Start;
    var act := RowInserted(if itemOk then Streaming else RowFailed);
    ActSnoc(s.acts, act, false);
    ActSnoc(s.acts, act, true);
  }

  lemma StartUsesLog(s: Recording, w: World, itemOk: bool)
    ensures !Start(s, w, itemOk).0.hasLog && Start(s, w, itemOk).0.usageRecorded == s.usageRecorded
  {
  }

  lemma EmptyCountsOnce(s: Recording, w: World)
    requires CountedOnce(s)
    ensures CountedOnce(Empty(s, w).0)
  {
    var a := s.acts + [RowInserted(RowFailed)];
    ActSnoc(s.acts, RowInserted(RowFailed), false);
    ActSnoc(s.acts, RowInserted(RowFailed), true);
    ActSnoc(a, Published(Failed), false);
    ActSnoc(a, Published(Failed), true);
    assert s.acts + [RowInserted(RowFailed), Published(Failed)] == a + [Published(Failed)];
  }

  /** In every run the row is inserted at most once and its final usage stored at most once. */
  lemma {:induction false} InsertedAtMostOnce(mode: Mode, hasWriter: bool, calls: seq<(World, Call)>)
    ensures CountedOnce(Run(Fresh(mode, hasWriter), calls))
  {
    if calls == [] {
    } else {
      hide Step, CountedOnce;
      InsertedAtMostOnce(mode, hasWriter, calls[..|calls| - 1]);
      StepCountsOnce(Run(Fresh(mode, hasWriter), calls[..|calls| - 1]), calls[|calls| - 1].0, calls[|calls| - 1].1);
    }
  }

  /** A good item on a stream that runs well stores the final usage when it is there and was not stored before. */
  lemma UsageIsStored(s: Recording, w: World)
    requires s.inserted && !s.failed
    ensures var s' := Observe(s, w, true);
      s'.acts == s.acts +
        (if w.finalUsageSeen && !s.usageRecorded && w.updateOk then [RowUpdated(UsageOnly)] else [])
  {
    assert s.acts + [] == s.acts;
  }

  // ----- The object -----

  class StreamRecordState {
    const mode: Mode
    var log: bool
    var rollout: bool
    var inserted: bool
    var failed: bool
    var usageRecorded: bool
    var rolloutFinalized: bool
    var acts: seq<Act>

    constructor (mode: Mode, hasWriter: bool)
      ensures View() == Fresh(mode, hasWriter)
    {
      this.mode, log, rollout := mode, true, hasWriter;
      inserted, failed, usageRecorded, rolloutFinalized, acts := false, false, false, false, [];
    }

    ghost function View(): Recording
      reads this
    {
      Recording(log, rollout, mode, inserted, failed, usageRecorded, rolloutFinalized, acts)
    }

    method Emit(ok: bool, act: Act)
      modifies this`acts
      ensures View() == Act1(old(View()), ok, act)
    {
      if ok { acts := acts + [act]; }
    }

    method StartStream(w: World, itemOk: bool) returns (error: bool)
      modifies this
      ensures (View(), error) == Start(old(View()), w, itemOk)
    {
      if !log { return false; }
      log := false;
      if !itemOk { failed := true; }
      if !rollout { return true; }
      if w.insertOk {
        Emit(true, RowInserted(if itemOk then Streaming else RowFailed));
        inserted := true;
        return false;
      }
      if mode == Required { return true; }
      failed := true;
      error := false;
    }

    method ObserveItem(w: World, itemOk: bool)
      modifies this
      ensures View() == Observe(old(View()), w, itemOk)
    {
      if inserted && !itemOk {
        if failed { FinalizeRollout(w, Failed); } else { RecordStreamError(w); }
      }
      if inserted && !failed && !usageRecorded && w.finalUsageSeen {
        usageRecorded := true;
        Emit(w.updateOk, RowUpdated(UsageOnly));
      }
    }

    method RecordStreamEnd(w: World)
      modifies this
      ensures View() == End(old(View()), w)
    {
      if !inserted { return; }
      if failed {
        FinalizeRollout(w, Failed);
      } else if !w.completionSeen {
        RecordStreamError(w);
      } else {
        Emit(w.updateOk, RowUpdated(RowSuccess));
        FinalizeRollout(w, Completed);
      }
    }

    method RecordEmptyStream(w: World) returns (error: bool)
      modifies this
      ensures (View(), error) == Empty(old(View()), w)
    {
      if !log { return false; }
      log := false;
      if !rollout { return mode == Required; }
      rollout := false;
      if !w.finishOk { return mode == Required; }
      if w.insertOk {
        acts := acts + [RowInserted(RowFailed), Published(Failed)];
        inserted, failed, rolloutFinalized := true, true, true;
        return false;
      }
      error := mode == Required;
    }

    method RecordStreamError(w: World)
      modifies this
      ensures View() == RecordError(old(View()), w)
    {
      failed := true;
      Emit(w.updateOk, RowUpdated(RowFailed));
      FinalizeRollout(w, Failed);
    }

    method RecordDownstreamDisconnect(w: World)
      modifies this
      ensures View() == Disconnect(old(View()), w)
    {
      if !failed {
        failed := true;
        Emit(w.updateOk, RowUpdated(RowFailed));
      }
      FinalizeRollout(w, Failed);
    }

    /** The append loop: one failure is remembered, the others are still appended. */
    static method AppendEvents(w: World) returns (appendFailed: bool)
      ensures appendFailed <==> !AllAppended(w)
    {
      appendFailed := false;
      for i := 0 to |w.appends|
        invariant appendFailed <==> exists k :: 0 <= k < i && !w.appends[k]
      {
        if !w.appends[i] { appendFailed := true; }
      }
      assert forall k :: 0 <= k < |w.appends| ==> w.appends[k] in w.appends;
    }

    /** `finalize_rollout`: the captured events are appended, then the writer finishes and its summary is published. */
    method FinalizeRollout(w: World, status: Status)
      modifies this
      ensures View() == Finalize(old(View()), w, status)
    {
      if rolloutFinalized || !rollout { return; }
      rollout := false;
      var appendFailed := AppendEvents(w);
      if w.finishOk && inserted {
        if appendFailed { Emit(w.secondUpdateOk, RowUpdated(RowFailed)); }
        Emit(w.publishOk, Published(FinalStatus(status, appendFailed)));
      }
      rolloutFinalized := true;
    }
  }
}
