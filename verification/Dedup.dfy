/**
 What deduplicating a replayed history guarantees (`append_request_events`, `context_refs_for_turn`,
 `resolve_refs`): how many copies of a content item the file ends up with, what each reference names,
 and that replaying a request writes nothing.
 */
module Dedup {
  import opened Basics
  import opened Conversation
  import opened ThreadStates
  import opened Reader
  import opened Writers

  function Count(wire: Wire, drafts: seq<ContentDraft>, x: Identity): nat {
    if drafts == [] then 0
    else Count(wire, drafts[..|drafts| - 1], x) + (if DraftIdentity(wire, drafts[|drafts| - 1]) == x then 1 else 0)
  }

  /** How many earlier drafts of the request have the identity of draft `i`. */
  function Occurrence(wire: Wire, drafts: seq<ContentDraft>, i: nat): nat
    requires i < |drafts|
  {
    Count(wire, drafts[..i], DraftIdentity(wire, drafts[i]))
  }

  /** No draft of identity `x` carries a stable id. */
  predicate IdLess(wire: Wire, drafts: seq<ContentDraft>, x: Identity) {
    forall d <- drafts :: DraftIdentity(wire, d) == x ==> StableKey(d).None?
  }

  lemma {:induction false} SeenCounts(wire: Wire, w: Writer, drafts: seq<ContentDraft>, x: Identity)
    ensures Seen(Process(wire, w, drafts).seen, x) == Count(wire, drafts, x)
    ensures |Process(wire, w, drafts).refs| == |drafts|
  {
    if drafts == [] {
    } else {
      SeenCounts(wire, w, drafts[..|drafts| - 1], x);
    }
  }

  /** Earlier refs are not revised by later drafts. */
  lemma {:induction false} RefsOfPrefix(wire: Wire, w: Writer, drafts: seq<ContentDraft>, n: nat)
    requires n <= |drafts|
    ensures |Process(wire, w, drafts).refs| == |drafts|
    ensures Process(wire, w, drafts).refs[..n] == Process(wire, w, drafts[..n]).refs
  {
    if n < |drafts| {
      var init := drafts[..|drafts| - 1];
      RefsOfPrefix(wire, w, init, n);
      assert init[..n] == drafts[..n];
    } else {
      assert drafts[..n] == drafts;
      SeenCounts(wire, w, drafts, Identity(Usage, None, ""));
    }
  }

  // ----- How many events a request leaves, and which one each draft gets -----

  /** The thread, or an earlier draft of the request, knows the draft by its stable key. */
  predicate KnownByKey(items: map<ItemKey, nat>, before: seq<ContentDraft>, draft: ContentDraft) {
    match StableKey(draft)
    case None => false
    case Some(key) => key in items || exists d <- before :: StableKey(d) == Some(key)
  }

  /** The drafts of `x` behind the first `c` that no key makes known: those the request has to write. */
  function Late(wire: Wire, items: map<ItemKey, nat>, drafts: seq<ContentDraft>, x: Identity, c: nat): nat {
    if drafts == [] then 0
    else
      var n := |drafts| - 1;
      Late(wire, items, drafts[..n], x, c)
      + (if DraftIdentity(wire, drafts[n]) == x && Count(wire, drafts[..n], x) >= c
            && !KnownByKey(items, drafts[..n], drafts[n]) then 1 else 0)
  }

  predicate Unkeyed(wire: Wire, items: map<ItemKey, nat>, drafts: seq<ContentDraft>, i: nat, x: Identity)
    requires i < |drafts|
  {
    DraftIdentity(wire, drafts[i]) == x && !KnownByKey(items, drafts[..i], drafts[i])
  }

  /** The position in its list of the event that draft `i` gets, when no key makes it known. */
  function Place(wire: Wire, items: map<ItemKey, nat>, drafts: seq<ContentDraft>, i: nat, c: nat): nat
    requires i < |drafts|
  {
    var k := Occurrence(wire, drafts, i);
    if k < c then k else c + Late(wire, items, drafts[..i], DraftIdentity(wire, drafts[i]), c)
  }

  lemma {:induction false} LateIsFew(wire: Wire, items: map<ItemKey, nat>, drafts: seq<ContentDraft>, x: Identity,
      c: nat)
    ensures Late(wire, items, drafts, x, c) <= Max(0, Count(wire, drafts, x) - c)
  {
    if drafts == [] {
    } else {
      hide DraftIdentity, KnownByKey;
      LateIsFew(wire, items, drafts[..|drafts| - 1], x, c);
    }
  }

  /** Without stable ids every draft behind the first `c` is late. */
  lemma {:induction false} LateOfIdLess(wire: Wire, items: map<ItemKey, nat>, drafts: seq<ContentDraft>, x: Identity,
      c: nat)
    requires IdLess(wire, drafts, x)
    ensures Late(wire, items, drafts, x, c) == Max(0, Count(wire, drafts, x) - c)
  {
    if drafts == [] {
    } else {
      hide DraftIdentity, StableKey;
      assert drafts[|drafts| - 1] in drafts;
      LateOfIdLess(wire, items, drafts[..|drafts| - 1], x, c);
    }
  }

  lemma {:induction false} PlaceOfIdLess(wire: Wire, items: map<ItemKey, nat>, drafts: seq<ContentDraft>, i: nat,
      c: nat)
    requires i < |drafts| && IdLess(wire, drafts, DraftIdentity(wire, drafts[i]))
    ensures Place(wire, items, drafts, i, c) == Occurrence(wire, drafts, i)
  {
    hide DraftIdentity, StableKey;
    LateOfIdLess(wire, items, drafts[..i], DraftIdentity(wire, drafts[i]), c);
  }

  /** A request leaves the keys of the thread and those of its drafts. */
  lemma {:induction false} KeysAfter(wire: Wire, w: Writer, drafts: seq<ContentDraft>, key: ItemKey)
    ensures key in Process(wire, w, drafts).w.core.itemRefs <==>
      key in w.core.itemRefs || exists d <- drafts :: StableKey(d) == Some(key)
  {
    if drafts == [] {
    } else {
      hide StableKey, DraftIdentity;
      var init, last := drafts[..|drafts| - 1], drafts[|drafts| - 1];
      KeysAfter(wire, w, init, key);
      assert forall d <- drafts :: d in init || d == last;
      assert forall d <- init :: d in drafts;
      assert last in drafts;
      KeysStep(wire, Process(wire, w, init), last, key);
    }
  }

  lemma KeysStep(wire: Wire, p: Pass, draft: ContentDraft, key: ItemKey)
    ensures key in ProcessOne(wire, p, draft).w.core.itemRefs <==>
      key in p.w.core.itemRefs || StableKey(draft) == Some(key)
  {
  }

  /** One draft: lists of other identities stay, its own gets one more event unless it is found. */
  lemma ListingStep(wire: Wire, p: Pass, draft: ContentDraft, x: Identity)
    requires IsContentKind(x.kind)
    ensures var q := ProcessOne(wire, p, draft);
      var mid, after, k := Refs(p.w.core.eventRefs, x), Refs(q.w.core.eventRefs, x), Seen(p.seen, x);
      var known := StableKey(draft).Some? && StableKey(draft).value in p.w.core.itemRefs;
      && |q.refs| == |p.refs| + 1 && q.refs[..|p.refs|] == p.refs
      && after == (if DraftIdentity(wire, draft) == x && !known && k >= |mid| then mid + [p.w.seqNo + 1] else mid)
      && (DraftIdentity(wire, draft) == x && !known ==>
           q.refs[|p.refs|] == (if k < |mid| then mid[k] else p.w.seqNo + 1))
  {
  }

  /** Lists only grow at the end, by one event for each late draft. */
  lemma {:induction false} ListingCount(wire: Wire, w: Writer, drafts: seq<ContentDraft>, x: Identity)
    requires IsContentKind(x.kind)
    ensures var before, after := Refs(w.core.eventRefs, x), Refs(Process(wire, w, drafts).w.core.eventRefs, x);
      before <= after && |after| == |before| + Late(wire, w.core.itemRefs, drafts, x, |before|)
  {
    hide ProcessOne, StableKey, DraftIdentity, KnownByKey, Refs;
    if drafts == [] {
    } else {
      var items, c := w.core.itemRefs, |Refs(w.core.eventRefs, x)|;
      var init, last := drafts[..|drafts| - 1], drafts[|drafts| - 1];
      ListingCount(wire, w, init, x);
      SeenCounts(wire, w, init, x);
      LateIsFew(wire, items, init, x, c);
      KnownAfter(wire, w, init, last);
      ListingStep(wire, Process(wire, w, init), last, x);
    }
  }

  /** The reference of a draft that no key makes known is the event at its place. */
  lemma {:induction false} ListingPlace(wire: Wire, w: Writer, drafts: seq<ContentDraft>, i: nat, x: Identity)
    requires IsContentKind(x.kind) && i < |drafts| && Unkeyed(wire, w.core.itemRefs, drafts, i, x)
    ensures var c, after := |Refs(w.core.eventRefs, x)|, Refs(Process(wire, w, drafts).w.core.eventRefs, x);
      && |Process(wire, w, drafts).refs| == |drafts|
      && Place(wire, w.core.itemRefs, drafts, i, c) < |after|
      && Process(wire, w, drafts).refs[i] == after[Place(wire, w.core.itemRefs, drafts, i, c)]
  {
    hide ProcessOne, StableKey, DraftIdentity, KnownByKey, Place, Refs, Late;
    var items, c, n := w.core.itemRefs, |Refs(w.core.eventRefs, x)|, |drafts| - 1;
    var init := drafts[..n];
    var p := Process(wire, w, init);
    SeenCounts(wire, w, init, x);
    ListingCount(wire, w, init, x);
    ListingStep(wire, p, drafts[n], x);
    if i < n {
      assert init[..i] == drafts[..i] && init[i] == drafts[i];
      PlaceOfPrefix(wire, items, drafts, i, c);
      ListingPlace(wire, w, init, i, x);
      assert Process(wire, w, drafts).refs[..n][i] == p.refs[i];
    } else {
      LateIsFew(wire, items, init, x, c);
      KnownAfter(wire, w, init, drafts[n]);
      PlaceOfLast(wire, items, drafts, x, c);
    }
  }

  /**
   The listing law, for any request: if `x` is listed c times, it is listed c + Late times afterwards; what
   was listed stays in front, and a draft of `x` that no key makes known refers to the event at its place.
   */
  lemma ListingLaw(wire: Wire, w: Writer, drafts: seq<ContentDraft>, x: Identity)
    requires IsContentKind(x.kind)
    ensures var before, after := Refs(w.core.eventRefs, x), Refs(Process(wire, w, drafts).w.core.eventRefs, x);
      && before <= after
      && |after| == |before| + Late(wire, w.core.itemRefs, drafts, x, |before|)
      && |Process(wire, w, drafts).refs| == |drafts|
      && forall i :: 0 <= i < |drafts| && Unkeyed(wire, w.core.itemRefs, drafts, i, x) ==>
           Place(wire, w.core.itemRefs, drafts, i, |before|) < |after|
           && Process(wire, w, drafts).refs[i] == after[Place(wire, w.core.itemRefs, drafts, i, |before|)]
  {
    hide Process, Place, Late, Refs, Unkeyed;
    ListingCount(wire, w, drafts, x);
    SeenCounts(wire, w, drafts, x);
    forall i | 0 <= i < |drafts| && Unkeyed(wire, w.core.itemRefs, drafts, i, x)
      ensures Place(wire, w.core.itemRefs, drafts, i, |Refs(w.core.eventRefs, x)|)
        < |Refs(Process(wire, w, drafts).w.core.eventRefs, x)|
      ensures Process(wire, w, drafts).refs[i] == Refs(Process(wire, w, drafts).w.core.eventRefs, x)
        [Place(wire, w.core.itemRefs, drafts, i, |Refs(w.core.eventRefs, x)|)]
    {
      ListingPlace(wire, w, drafts, i, x);
    }
  }

  lemma KnownAfter(wire: Wire, w: Writer, drafts: seq<ContentDraft>, draft: ContentDraft)
    ensures KnownByKey(w.core.itemRefs, drafts, draft) <==>
      StableKey(draft).Some? && StableKey(draft).value in Process(wire, w, drafts).w.core.itemRefs
  {
    hide StableKey, Process;
    if StableKey(draft).Some? { KeysAfter(wire, w, drafts, StableKey(draft).value); }
  }

  lemma PlaceOfPrefix(wire: Wire, items: map<ItemKey, nat>, drafts: seq<ContentDraft>, i: nat, c: nat)
    requires i < |drafts| - 1
    ensures Place(wire, items, drafts, i, c) == Place(wire, items, drafts[..|drafts| - 1], i, c)
  {
    assert drafts[..|drafts| - 1][..i] == drafts[..i];
  }

  lemma PlaceOfLast(wire: Wire, items: map<ItemKey, nat>, drafts: seq<ContentDraft>, x: Identity, c: nat)
    requires drafts != [] && DraftIdentity(wire, drafts[|drafts| - 1]) == x
    ensures var n := |drafts| - 1;
      Place(wire, items, drafts, n, c) ==
        if Count(wire, drafts[..n], x) < c then Count(wire, drafts[..n], x)
        else c + Late(wire, items, drafts[..n], x, c)
  {
  }

  /**
   The counting law: if `x` is listed c times and occurs n times in the request, always without a stable
   id, it is listed max(c, n) times afterwards; what was listed stays in front, and the k-th draft of `x`
   refers to the k-th listed event of `x`.
   */
  lemma CountingLaw(wire: Wire, w: Writer, drafts: seq<ContentDraft>, x: Identity)
    requires IdLess(wire, drafts, x) && IsContentKind(x.kind)
    ensures var before, after := Refs(w.core.eventRefs, x), Refs(Process(wire, w, drafts).w.core.eventRefs, x);
      && before <= after
      && |after| == Max(|before|, Count(wire, drafts, x))
      && |Process(wire, w, drafts).refs| == |drafts|
      && forall i :: 0 <= i < |drafts| && DraftIdentity(wire, drafts[i]) == x ==>
           Occurrence(wire, drafts, i) < |after|
             && Process(wire, w, drafts).refs[i] == after[Occurrence(wire, drafts, i)]
  {
    hide Process, DraftIdentity, StableKey, Place, Late, Occurrence;
    var c := |Refs(w.core.eventRefs, x)|;
    ListingLaw(wire, w, drafts, x);
    LateOfIdLess(wire, w.core.itemRefs, drafts, x, c);
    forall i | 0 <= i < |drafts| && DraftIdentity(wire, drafts[i]) == x
      ensures !KnownByKey(w.core.itemRefs, drafts[..i], drafts[i])
      ensures Place(wire, w.core.itemRefs, drafts, i, c) == Occurrence(wire, drafts, i)
    {
      assert drafts[i] in drafts;
      PlaceOfIdLess(wire, w.core.itemRefs, drafts, i, c);
    }
  }

  predicate Increasing(s: seq<nat>) {
    forall i, j :: 0 <= i < j < |s| ==> s[i] < s[j]
  }

  /** The listed numbers increase and none is ahead of the writer. */
  ghost predicate Ordered(w: Writer) {
    forall x <- w.core.eventRefs ::
      Increasing(w.core.eventRefs[x]) && forall s <- w.core.eventRefs[x] :: s <= w.seqNo
  }

  lemma {:induction false} ProcessKeepsOrder(wire: Wire, w: Writer, drafts: seq<ContentDraft>)
    requires Ordered(w)
    ensures Ordered(Process(wire, w, drafts).w)
  {
    if drafts == [] {
    } else {
      var init, last := drafts[..|drafts| - 1], drafts[|drafts| - 1];
      ProcessKeepsOrder(wire, w, init);
      var p := Process(wire, w, init);
      if Existing(wire, p.w.core, p.seen, last).None? {
        OrderAfterContent(wire, p.w, last);
      }
    }
  }

  lemma OrderAfterContent(wire: Wire, w: Writer, draft: ContentDraft)
    requires Ordered(w)
    ensures Ordered(WriteContent(wire, w, draft))
  {
    var w' := WriteContent(wire, w, draft);
    var x := DraftIdentity(wire, draft);
    forall y <- w'.core.eventRefs
      ensures Increasing(w'.core.eventRefs[y]) && forall s <- w'.core.eventRefs[y] :: s <= w'.seqNo
    {
      var was := Refs(w.core.eventRefs, y);
      assert Increasing(was) && forall s <- was :: s <= w.seqNo;
      if y == x && IsContentKind(x.kind) {
        assert w'.core.eventRefs[y] == was + [w.seqNo + 1];
        assert forall i :: 0 <= i < |was| ==> was[i] in was;
      } else {
        assert w'.core.eventRefs[y] == was;
      }
    }
  }

  lemma {:induction false} CountMonotone(wire: Wire, drafts: seq<ContentDraft>, i: nat, j: nat, x: Identity)
    requires i < j <= |drafts| && DraftIdentity(wire, drafts[i]) == x
    ensures Count(wire, drafts[..i], x) < Count(wire, drafts[..j], x)
    decreases j
  {
    assert drafts[..j][..j - 1] == drafts[..j - 1];
    if i < j - 1 { CountMonotone(wire, drafts, i, j - 1, x); }
  }

  /** Drafts of one id-less identity get distinct references, in increasing order. */
  lemma RefsAreIncreasing(wire: Wire, w: Writer, drafts: seq<ContentDraft>, i: nat, j: nat)
    requires Ordered(w) && i < j < |drafts|
    requires DraftIdentity(wire, drafts[i]) == DraftIdentity(wire, drafts[j])
    requires IdLess(wire, drafts, DraftIdentity(wire, drafts[i])) && IsContentKind(KindOf(drafts[i].body))
    ensures |Process(wire, w, drafts).refs| == |drafts|
    ensures Process(wire, w, drafts).refs[i] < Process(wire, w, drafts).refs[j]
  {
    hide Process;
    var x := DraftIdentity(wire, drafts[i]);
    CountingLaw(wire, w, drafts, x);
    ProcessKeepsOrder(wire, w, drafts);
    CountMonotone(wire, drafts, i, j, x);
    assert Increasing(Refs(Process(wire, w, drafts).w.core.eventRefs, x));
  }

  // ----- The same law, read off the file -----

  function EventsIn(values: seq<LineValue>): seq<Event> {
    if Parse(values).Ok? then Parse(values).value.events else []
  }

  /** The file's current window: the events behind the last window event. */
  function CurrentWindow(values: seq<LineValue>): seq<Event> {
    EventsIn(values)[WindowStart(EventsIn(values))..]
  }

  lemma ListedIsCurrentWindow(w: Writer, base: seq<LineValue>, x: Identity)
    requires InSync(w, base) && IsContentKind(x.kind)
    ensures Refs(w.core.eventRefs, x) == SeqsOf(CurrentWindow(base + w.written), x)
  {
    RebuildRefsAreWindowSeqs(EventsIn(base + w.written), x);
  }

  /** The current window of the file ends up with exactly max(c, n) events of an id-less identity. */
  lemma FileHoldsMax(wire: Wire, w: Writer, drafts: seq<ContentDraft>, base: seq<LineValue>, x: Identity)
    requires InSync(w, base)
    requires IdLess(wire, drafts, x) && IsContentKind(x.kind)
    ensures var after := AppendRequest(wire, w, drafts);
      |SeqsOf(CurrentWindow(base + after.written), x)|
        == Max(|SeqsOf(CurrentWindow(base + w.written), x)|, Count(wire, drafts, x))
  {
    hide InSync, CurrentWindow, Process;
    var p := Process(wire, w, drafts);
    SyncProcess(wire, w, base, drafts);
    SyncControl(wire, p.w, base, Context(Some(p.refs)));
    CountingLaw(wire, w, drafts, x);
    ListedIsCurrentWindow(w, base, x);
    ListedIsCurrentWindow(AppendRequest(wire, w, drafts), base, x);
  }

  // ----- References are sound -----

  /** An event of the current window with this number and identity. */
  ghost predicate InWindow(values: seq<LineValue>, seqNo: nat, x: Identity) {
    exists e <- CurrentWindow(values) :: e.seqNo == seqNo && HasIdentity(e, x)
  }

  /** An event of the current window with this number that stores this content. */
  ghost predicate StoredInWindow(wire: Wire, values: seq<LineValue>, seqNo: nat, body: ContentBody) {
    exists e <- CurrentWindow(values) :: e.seqNo == seqNo && Stores(wire, e, body)
  }

  /**
   Every reference of a request names a content event of the file with the draft's type. Unless the draft's key
   was known already, it names an event behind the last window event that stores the draft's content: type,
   redacted tool call id and redacted JSON.
   */
  lemma RefsAreSound(wire: Wire, w: Writer, drafts: seq<ContentDraft>, base: seq<LineValue>, i: nat)
    requires InSync(w, base) && i < |drafts|
    ensures var p := Process(wire, w, drafts);
      && |p.refs| == |drafts|
      && Holds(EventsIn(base + p.w.written), p.refs[i], KindOf(drafts[i].body))
      && (!KnownByKey(w.core.itemRefs, drafts[..i], drafts[i]) ==>
           StoredInWindow(wire, base + p.w.written, p.refs[i], drafts[i].body))
  {
    hide InSync, Process, EventsIn, CurrentWindow, Holds, KnownByKey, DraftIdentity, Stores;
    RefsAreFound(wire, w, drafts, base, i);
    var values, seqNo := base + Process(wire, w, drafts).w.written, Process(wire, w, drafts).refs[i];
    if !KnownByKey(w.core.itemRefs, drafts[..i], drafts[i]) {
      var e :| e in CurrentWindow(values) && e.seqNo == seqNo && HasIdentity(e, DraftIdentity(wire, drafts[i]));
      StoresIff(wire, e, drafts[i]);
    }
  }

  lemma {:induction false} RefsAreFound(wire: Wire, w: Writer, drafts: seq<ContentDraft>, base: seq<LineValue>, i: nat)
    requires InSync(w, base) && i < |drafts|
    ensures var p := Process(wire, w, drafts);
      && |p.refs| == |drafts|
      && Holds(EventsIn(base + p.w.written), p.refs[i], KindOf(drafts[i].body))
      && (!KnownByKey(w.core.itemRefs, drafts[..i], drafts[i]) ==>
           InWindow(base + p.w.written, p.refs[i], DraftIdentity(wire, drafts[i])))
  {
    hide Parse, Holds, InWindow, WriteEvent, InSync, KnownByKey;
    var n := |drafts| - 1;
    var init, last := drafts[..n], drafts[n];
    var p, q := Process(wire, w, init), Process(wire, w, drafts);
    SyncProcess(wire, w, base, init);
    SyncProcess(wire, w, base, drafts);
    RefsOfPrefix(wire, w, drafts, n);
    if i < n {
      RefsAreFound(wire, w, init, base, i);
      assert init[i] == drafts[i] && init[..i] == drafts[..i] && p.refs[i] == q.refs[i];
      StillSound(wire, p, last, base, p.refs[i], KindOf(drafts[i].body), DraftIdentity(wire, drafts[i]));
    } else {
      KnownAfter(wire, w, init, last);
      OneRefIsSound(wire, p, last, base);
    }
  }

  /** One more content line: the file and its current window grow by that event. */
  lemma WindowGrows(before: seq<LineValue>, e: Event)
    requires before != [] && Parse(before).Ok? && e.body.Content?
    ensures Parse(before + [Record(e)]).Ok?
    ensures EventsIn(before + [Record(e)]) == EventsIn(before) + [e]
    ensures CurrentWindow(before + [Record(e)]) == CurrentWindow(before) + [e]
  {
    hide Parse;
    var events := EventsIn(before);
    ParseOneMore(before, e);
    assert (events + [e])[..|events|] == events;
    assert (events + [e])[WindowStart(events)..] == events[WindowStart(events)..] + [e];
  }

  /** Processing one more draft leaves the file's earlier events, and the window, in place. */
  lemma StillSound(wire: Wire, p: Pass, draft: ContentDraft, base: seq<LineValue>, seqNo: nat, kind: Kind, x: Identity)
    requires InSync(p.w, base)
    ensures var before, after := base + p.w.written, base + ProcessOne(wire, p, draft).w.written;
      && (Holds(EventsIn(before), seqNo, kind) ==> Holds(EventsIn(after), seqNo, kind))
      && (InWindow(before, seqNo, x) ==> InWindow(after, seqNo, x))
  {
    hide Parse, Existing, Holds, EventsIn, CurrentWindow;
    var before, after := base + p.w.written, base + ProcessOne(wire, p, draft).w.written;
    if Existing(wire, p.w.core, p.seen, draft).None? {
      var e := Event(p.w.seqNo + 1, Content(KindOf(draft.body), PayloadOf(wire, draft.body)));
      WindowGrows(before, e);
      assert after == before + [Record(e)];
      if Holds(EventsIn(before), seqNo, kind) { HoldsLater(EventsIn(before), [e], seqNo, kind); }
    } else {
      assert after == before;
    }
  }

  /** Only content kinds are listed. */
  lemma ListedIsContent(w: Writer, base: seq<LineValue>, x: Identity)
    requires InSync(w, base) && Refs(w.core.eventRefs, x) != []
    ensures IsContentKind(x.kind)
  {
    RebuildListsContentOnly(EventsIn(base + w.written));
  }

  lemma OneRefIsSound(wire: Wire, p: Pass, draft: ContentDraft, base: seq<LineValue>)
    requires InSync(p.w, base)
    ensures var q := ProcessOne(wire, p, draft);
      && Holds(EventsIn(base + q.w.written), q.refs[|p.refs|], KindOf(draft.body))
      && (!(StableKey(draft).Some? && StableKey(draft).value in p.w.core.itemRefs) ==>
           InWindow(base + q.w.written, q.refs[|p.refs|], DraftIdentity(wire, draft)))
  {
    hide Parse, Holds, CurrentWindow;
    var q := ProcessOne(wire, p, draft);
    var before := base + p.w.written;
    if Existing(wire, p.w.core, p.seen, draft).Some? {
      var x := DraftIdentity(wire, draft);
      SyncExisting(wire, p, base, draft);
      assert base + q.w.written == before;
      if !(StableKey(draft).Some? && StableKey(draft).value in p.w.core.itemRefs) {
        ListedIsContent(p.w, base, x);
        ListedIsCurrentWindow(p.w, base, x);
        var i := SeqsOfNames(CurrentWindow(before), x, Seen(p.seen, x));
        assert CurrentWindow(before)[i] in CurrentWindow(before);
      }
    } else {
      hide EventsIn, InSync, Existing;
      var e := Event(p.w.seqNo + 1, Content(KindOf(draft.body), PayloadOf(wire, draft.body)));
      assert base + q.w.written == before + [Record(e)];
      WindowGrows(before, e);
      HoldsLast(EventsIn(before), e);
    }
  }

  // ----- The lines a request writes -----

  /** The line records this draft under this number: content and phase. */
  predicate RecordsDraft(wire: Wire, v: LineValue, seqNo: nat, body: ContentBody) {
    v.Record? && v.event.seqNo == seqNo && Stores(wire, v.event, body) && StoresPhase(v.event, body)
  }

  /** The drafts `which`, in order, and no others are written, and each gets its own line's number. */
  predicate WritesJust(wire: Wire, w: Writer, drafts: seq<ContentDraft>, which: seq<nat>) {
    var p := Process(wire, w, drafts);
    && |p.refs| == |drafts| && p.w.seqNo == w.seqNo + |which|
    && |p.w.written| == |w.written| + |which| && p.w.written[..|w.written|] == w.written
    && (forall k :: 0 <= k < |which| ==> which[k] < |drafts| && p.refs[which[k]] == w.seqNo + 1 + k)
    && (forall k :: 0 < k < |which| ==> which[k - 1] < which[k])
    && (forall k :: 0 <= k < |which| ==>
         RecordsDraft(wire, p.w.written[|w.written| + k], w.seqNo + 1 + k, drafts[which[k]].body))
  }

  /**
   The lines a request adds are those of the drafts that were not found, in the request's order, numbered on
   from the writer; each line stores its draft's content and phase, and its number is the draft's reference.
   */
  lemma {:induction false} LinesOfRequest(wire: Wire, w: Writer, drafts: seq<ContentDraft>) returns (which: seq<nat>)
    ensures WritesJust(wire, w, drafts, which)
  {
    if drafts == [] {
      which := [];
    } else {
      hide WritesJust, Process;
      var n := |drafts| - 1;
      var before := LinesOfRequest(wire, w, drafts[..n]);
      which := OneMoreLine(wire, w, drafts, before);
    }
  }

  lemma OneMoreLine(wire: Wire, w: Writer, drafts: seq<ContentDraft>, before: seq<nat>) returns (which: seq<nat>)
    requires drafts != [] && WritesJust(wire, w, drafts[..|drafts| - 1], before)
    ensures WritesJust(wire, w, drafts, which)
  {
    hide ProcessOne, RecordsDraft;
    var n := |drafts| - 1;
    var p, q := Process(wire, w, drafts[..n]), Process(wire, w, drafts);
    LineOfOne(wire, p, drafts[n]);
    assert forall i :: 0 <= i < n ==> q.refs[i] == q.refs[..n][i] && drafts[..n][i] == drafts[i];
    if Existing(wire, p.w.core, p.seen, drafts[n]).Some? {
      which := before;
    } else {
      which := before + [n];
      assert forall i :: 0 <= i < |p.w.written| ==> q.w.written[i] == q.w.written[..|p.w.written|][i];
      assert q.w.written[..|w.written|] == p.w.written[..|w.written|];
    }
  }

  lemma LineOfOne(wire: Wire, p: Pass, draft: ContentDraft)
    ensures var q := ProcessOne(wire, p, draft);
      && |q.refs| == |p.refs| + 1 && q.refs[..|p.refs|] == p.refs
      && if Existing(wire, p.w.core, p.seen, draft).Some? then q.w.seqNo == p.w.seqNo && q.w.written == p.w.written
         else
           && q.w.seqNo == p.w.seqNo + 1 && q.refs[|p.refs|] == p.w.seqNo + 1
           && |q.w.written| == |p.w.written| + 1 && q.w.written[..|p.w.written|] == p.w.written
           && RecordsDraft(wire, q.w.written[|p.w.written|], p.w.seqNo + 1, draft.body)
  {
    hide Existing, DraftIdentity, StableKey, KindOf, PayloadOf, Stores, StoresPhase;
    WrittenStores(wire, p.w.seqNo + 1, draft.body);
  }
}
