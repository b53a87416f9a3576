/**
 The fast forms stand in for the slow one: what cache and index yield, after any run, is what a full reload of
 the thread would compute, exactly when the reload would read the same segment.
 */
module Agreement {
  import opened Basics
  import opened Conversation
  import opened ThreadStates
  import opened Reader
  import opened Writers
  import opened Servers
  import opened LruCache

  /** The two states agree on everything but the item references and the digest chain. */
  ghost predicate SameButItems(fast: ThreadState, slow: ThreadState) {
    && fast.path == slow.path && fast.format == slow.format
    && fast.lineCount == slow.lineCount && fast.seqNo == slow.seqNo
    && fast.core.window == slow.core.window
    && fast.core.eventRefs == slow.core.eventRefs
    && fast.core.contentEventCount == slow.core.contentEventCount
  }

  /** Nobody created this thread's base file behind a recovered segment in use. */
  ghost predicate Undisturbed(wire: Wire, limit: nat, steps: seq<Step>, key: Key) {
    forall n :: 0 <= n < |steps| ==> !Disturbs(wire, Run(wire, limit, steps[..n]), steps[n], key)
  }

  /** The reload would read the very segment this state stands for. */
  ghost predicate ChosenStill(wire: Wire, disk: Disk, state: ThreadState) {
    var c := Choose(Candidates(wire, disk, state.path.key));
    c.Use? && c.segment == state.path.segment
  }

  /**
   After any interleaved run whatsoever, a state taken from the cache or from the index is the state a full
   reload of the thread would compute from the files as they are, exactly when the reload would read the
   segment the state stands for. That reload would then find nothing to repair, and the tool references agree
   too when redaction has left the ids given to this thread alone.
   */
  lemma FastEqualsReloadIff(wire: Wire, limit: nat, steps: seq<Step>, key: Key)
    requires wire.Lossless() && key !in Run(wire, limit, steps).turns
    requires var r := Resolve(wire, limit, Run(wire, limit, steps), key);
      r.outcome.Ok? && !r.outcome.value.1.FromFile?
    ensures var s := Run(wire, limit, steps);
      var fast := Resolve(wire, limit, s, key).outcome.value.0;
      var slow := LoadThread(wire, limit, s, key);
      && fast.path.key == key
      && (slow.outcome.Ok? && SameButItems(fast, slow.outcome.value.0) <==> ChosenStill(wire, s.disk, fast))
      && (ChosenStill(wire, s.disk, fast) ==>
           && slow.server.disk == s.disk
           && ((forall step <- steps :: StepKeepsIds(wire, step, key)) ==>
                ToolRefs(fast.core.itemRefs) == slow.outcome.value.0.core.itemRefs))
  {
    hide ServerInv, Resolve, OnlyThread, Resolved, Describes, LoadThread, SameButItems, StepKeepsIds, Run, ChosenStill;
    var t := Trust({}, if forall step <- steps :: StepKeepsIds(wire, step, key) then {key} else {});
    var s := Run(wire, limit, steps);
    RunInv(wire, t, limit, steps);
    ResolveInv(wire, t, limit, s, key);
    var r := Resolve(wire, limit, s, key);
    ResolvedKey(wire, t, r.server, key, r.outcome.value.0);
    DescribedReloads(wire, t, limit, s, r.outcome.value.0);
  }

  /**
   Where nobody has created the thread's base file behind a recovered segment in use, the reload reads that
   segment, so the fast state always equals the reload.
   */
  lemma FastEqualsReload(wire: Wire, limit: nat, steps: seq<Step>, key: Key)
    requires wire.Lossless() && Undisturbed(wire, limit, steps, key)
    requires key !in Run(wire, limit, steps).turns
    requires var r := Resolve(wire, limit, Run(wire, limit, steps), key);
      r.outcome.Ok? && !r.outcome.value.1.FromFile?
    ensures var s := Run(wire, limit, steps);
      var fast := Resolve(wire, limit, s, key).outcome.value.0;
      var slow := LoadThread(wire, limit, s, key);
      && slow.outcome.Ok? && SameButItems(fast, slow.outcome.value.0)
      && slow.server.disk == s.disk
      && ((forall step <- steps :: StepKeepsIds(wire, step, key)) ==>
           ToolRefs(fast.core.itemRefs) == slow.outcome.value.0.core.itemRefs)
  {
    hide ServerInv, Resolve, OnlyThread, Resolved, Describes, LoadThread, SameButItems, Disturbs, StepKeepsIds, Run,
      Choose;
    var t, s := Trust({key}, {}), Run(wire, limit, steps);
    RunInv(wire, t, limit, steps);
    ResolveInv(wire, t, limit, s, key);
    FastEqualsReloadIff(wire, limit, steps, key);
    DescribedIsChosen(wire, t, s.disk, Resolve(wire, limit, s, key).outcome.value.0);
  }

  /** Reloading the thread of a state that stands for its file. */
  lemma DescribedReloads(wire: Wire, t: Trust, limit: nat, s: Server, fast: ThreadState)
    requires Describes(wire, t, s.disk, fast)
    ensures var slow := LoadThread(wire, limit, s, fast.path.key);
      && (slow.outcome.Ok? && SameButItems(fast, slow.outcome.value.0) <==> ChosenStill(wire, s.disk, fast))
      && (ChosenStill(wire, s.disk, fast) ==>
           && slow.server.disk == s.disk
           && (fast.path.key in t.kept ==> ToolRefs(fast.core.itemRefs) == slow.outcome.value.0.core.itemRefs))
  {
    hide Parse, Values, Choose, GivenUpBefore, SaveIndex, Rebuild, ToolRefs;
    var key, cs := fast.path.key, Candidates(wire, s.disk, fast.path.key);
    SegmentChoice(cs);
    var c := Choose(cs);
    if ChosenStill(wire, s.disk, fast) {
      assert cs[c.segment] == Inspect(wire, s.disk, fast.path);
      RebuildIsToolOnly(Parse(Values(wire, s.disk[fast.path].text)).value.events);
      var state := LoadThread(wire, limit, s, key).outcome.value.0;
      SavingKeepsDisk(s.(clock := s.clock + 1, cache := Insert(s.cache, limit, key, state)), key, state);
    } else if c.Start? {
      assert cs[c.segment] == Inspect(wire, s.disk, Path(key, c.segment));
    }
  }
}
