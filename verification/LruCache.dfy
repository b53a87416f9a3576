/**
 The in-memory thread cache (`ThreadIndex` in `store/rollout/cache.rs`): a map with last-used stamps that
 behaves as a list ordered by recency.
 */
module LruCache {
  import opened Basics
  import opened ThreadStates

  // ----- The recency list: least recently used first -----

  type Recency = seq<(Key, ThreadState)>

  predicate Distinct(list: Recency) {
    forall i, j :: 0 <= i < j < |list| ==> list[i].0 != list[j].0
  }

  /** The first entry with this key, or the length of the list. */
  function Position(list: Recency, key: Key): (k: nat)
    ensures k <= |list|
    ensures k < |list| ==> list[k].0 == key
    ensures forall i :: 0 <= i < k ==> list[i].0 != key
  {
    if list == [] || list[0].0 == key then 0 else 1 + Position(list[1..], key)
  }

  function Lookup(list: Recency, key: Key): Option<ThreadState> {
    var k := Position(list, key);
    if k < |list| then Some(list[k].1) else None
  }

  function Without(list: Recency, key: Key): Recency {
    var k := Position(list, key);
    if k < |list| then list[..k] + list[k + 1..] else list
  }

  /** A hit moves the entry to the end. */
  function Touch(list: Recency, key: Key): Recency {
    match Lookup(list, key)
    case Some(state) => Without(list, key) + [(key, state)]
    case None => list
  }

  /** What is left after a new key has pushed the front entry out of a full list. */
  function MakeRoom(list: Recency, limit: nat, key: Key): Recency {
    if |list| >= limit && Lookup(list, key).None? && list != [] then list[1..] else list
  }

  function Insert(list: Recency, limit: nat, key: Key, state: ThreadState): Recency {
    Without(MakeRoom(list, limit, key), key) + [(key, state)]
  }

  function RemovePaths(list: Recency, paths: set<Path>): Recency {
    if list == [] then []
    else
      var rest := RemovePaths(list[..|list| - 1], paths);
      if list[|list| - 1].1.path in paths then rest else rest + [list[|list| - 1]]
  }

  /**
   What the recency list guarantees: keys stay distinct, a positive limit is never exceeded, the inserted
   entry is found at the end, and inserting a new key into a full list drops exactly the front entry.
   */
  lemma InsertLaw(list: Recency, limit: nat, key: Key, state: ThreadState)
    requires Distinct(list) && |list| <= limit
    ensures var after := Insert(list, limit, key, state);
      && Distinct(after)
      && (limit > 0 ==> |after| <= limit)
      && after[|after| - 1] == (key, state)
      && (Lookup(list, key).None? && |list| == limit && limit > 0 ==> after == list[1..] + [(key, state)])
      && (Lookup(list, key).None? && |list| < limit ==> after == list + [(key, state)])
  {
    var kept := MakeRoom(list, limit, key);
    assert forall i :: 0 <= i < |kept| ==> kept[i] in list;
    var k := Position(kept, key);
    if Lookup(list, key).None? {
      assert forall e <- list :: e.0 != key;
      assert k == |kept|;
    }
  }

  /**
   What can be looked up after an insertion: the new state under its key, and under every other key what was there
   before, except under the key of the front entry when it had to make room.
   */
  lemma LookupAfterInsert(list: Recency, limit: nat, key: Key, state: ThreadState, other: Key)
    requires Distinct(list)
    ensures Lookup(Insert(list, limit, key, state), key) == Some(state)
    ensures var evicts := |list| >= limit && Lookup(list, key).None? && list != [];
      other != key ==>
        Lookup(Insert(list, limit, key, state), other) ==
          if evicts && list[0].0 == other then None else Lookup(list, other)
  {
    hide Position;
    var kept := MakeRoom(list, limit, key);
    assert forall i :: 0 <= i < |kept| ==> kept[i] == list[i + |list| - |kept|];
    assert Distinct(kept);
    WithoutMeaning(kept, key, other);
    LookupBehind(Without(kept, key), key, state, other);
    if kept != list { LookupInTail(list, other); }
  }

  lemma LookupIs(list: Recency, key: Key, k: nat)
    requires Distinct(list) && k < |list| && list[k].0 == key
    ensures Lookup(list, key) == Some(list[k].1)
  {
    var p := Position(list, key);
    assert p < |list| ==> list[p].0 == key;
  }

  lemma LookupNone(list: Recency, key: Key)
    requires forall i :: 0 <= i < |list| ==> list[i].0 != key
    ensures Lookup(list, key) == None
  {
  }

  lemma LookupInTail(list: Recency, other: Key)
    requires Distinct(list) && list != []
    ensures Lookup(list[1..], other) == if list[0].0 == other then None else Lookup(list, other)
  {
    assert Distinct(list[1..]);
  }

  /** Without a key, its entry is gone and the others are still found. */
  lemma WithoutMeaning(list: Recency, key: Key, other: Key)
    requires Distinct(list)
    ensures Distinct(Without(list, key))
    ensures forall i :: 0 <= i < |Without(list, key)| ==> Without(list, key)[i].0 != key
    ensures other != key ==> Lookup(Without(list, key), other) == Lookup(list, other)
  {
    hide Position;
    var k, rest := Position(list, key), Without(list, key);
    assert k < |list| ==> list[k].0 == key;
    assert forall i :: 0 <= i < |rest| ==> rest[i] == list[if i < k then i else i + 1];
    if other != key {
      hide Without;
      if i :| 0 <= i < |list| && list[i].0 == other {
        LookupIs(list, other, i);
        LookupIs(rest, other, if i < k then i else i - 1);
      } else {
        LookupNone(list, other);
        LookupNone(rest, other);
      }
    }
  }

  /** An entry behind a list without its key. */
  lemma LookupBehind(rest: Recency, key: Key, state: ThreadState, other: Key)
    requires Distinct(rest) && forall i :: 0 <= i < |rest| ==> rest[i].0 != key
    ensures Lookup(rest + [(key, state)], key) == Some(state)
    ensures other != key ==> Lookup(rest + [(key, state)], other) == Lookup(rest, other)
  {
    var after := rest + [(key, state)];
    assert Distinct(after);
    LookupIs(after, key, |rest|);
    if other != key {
      hide Position, Distinct;
      if i :| 0 <= i < |rest| && rest[i].0 == other {
        LookupIs(rest, other, i);
        LookupIs(after, other, i);
      } else {
        LookupNone(rest, other);
        LookupNone(after, other);
      }
    }
  }

  /** A hit moves its entry to the end and leaves the others in their order; a miss changes nothing. */
  lemma TouchMoves(list: Recency, key: Key, k: nat)
    requires Distinct(list)
    ensures k < |list| && list[k].0 == key ==> Touch(list, key) == list[..k] + list[k + 1..] + [list[k]]
    ensures (forall i :: 0 <= i < |list| ==> list[i].0 != key) ==> Touch(list, key) == list
  {
    hide Position;
    var p := Position(list, key);
    if k < |list| && list[k].0 == key { assert p == k; }
  }

  /** A hit keeps the size, an insertion keeps it within a positive limit. */
  lemma SizesKept(list: Recency, limit: nat, key: Key, state: ThreadState)
    ensures |Touch(list, key)| == |list|
    ensures Lookup(list, key).Some? ==> |Without(list, key)| + 1 == |list|
    ensures limit > 0 && |list| <= limit ==> |Insert(list, limit, key, state)| <= limit
  {
    PositionInTail(list, key);
  }

  lemma PositionInTail(list: Recency, key: Key)
    ensures Lookup(list, key).None? && list != [] ==> Lookup(list[1..], key).None?
  {
  }

  /** A hit, an insertion and a removal bring in nothing but the entry they are given. */
  lemma MembersOnly(list: Recency, limit: nat, key: Key, state: ThreadState)
    ensures forall e <- Touch(list, key) :: e in list
    ensures forall e <- Insert(list, limit, key, state) :: e in list || e == (key, state)
    ensures Lookup(list, key).Some? ==> (key, Lookup(list, key).value) in list
  {
    var k := Position(list, key);
    if k < |list| { assert list[k] == (key, list[k].1); }
  }

  /** A hit loses no entry and keeps the keys distinct. */
  lemma TouchLaw(list: Recency, key: Key)
    requires Distinct(list)
    ensures Distinct(Touch(list, key)) && multiset(Touch(list, key)) == multiset(list)
  {
    var k := Position(list, key);
    if k < |list| {
      hide Position;
      assert Touch(list, key) == RemoveAt(list, k) + [list[k]];
      MovedToEnd(list, k);
      RestDistinct(list, k);
    }
  }

  lemma MovedToEnd<T>(list: seq<T>, k: nat)
    requires k < |list|
    ensures multiset(RemoveAt(list, k) + [list[k]]) == multiset(list)
  {
    assert list == list[..k] + [list[k]] + list[k + 1..];
  }

  lemma RestDistinct(list: Recency, k: nat)
    requires Distinct(list) && k < |list|
    ensures Distinct(RemoveAt(list, k) + [list[k]])
  {
    var rest := RemoveAt(list, k);
    hide RemoveAt;
    assert forall i :: 0 <= i < |rest| ==> rest[i].0 != list[k].0;
  }

  /** The survivors of `remove_paths` are the entries of other paths, in their order. */
  lemma {:induction false} RemovePathsKeepsOrder(a: Recency, b: Recency, paths: set<Path>)
    ensures RemovePaths(a + b, paths) == RemovePaths(a, paths) + RemovePaths(b, paths)
    ensures forall e :: e in RemovePaths(a, paths) <==> e in a && e.1.path !in paths
    decreases |a| + |b|
  {
    if b == [] {
      assert a + b == a;
      if a != [] {
        RemovePathsKeepsOrder(a[..|a| - 1], [], paths);
        assert a == a[..|a| - 1] + [a[|a| - 1]];
      }
    } else {
      assert (a + b)[..|a + b| - 1] == a + b[..|b| - 1];
      RemovePathsKeepsOrder(a, b[..|b| - 1], paths);
    }
  }

  // ----- The map with stamps -----

  datatype Entry = Entry(state: ThreadState, lastUsed: nat)

  const ClockWrap: nat := 0x1_0000_0000_0000_0000

  /** `order` lists the map's keys by their stamps; stamps are distinct and none is ahead of the clock. */
  ghost predicate Ordered(order: seq<Key>, entries: map<Key, Entry>, clock: nat) {
    && (forall i :: 0 <= i < |order| ==> order[i] in entries && entries[order[i]].lastUsed <= clock)
    && (forall key <- entries :: key in order)
    && (forall i, j :: 0 <= i < j < |order| ==> entries[order[i]].lastUsed < entries[order[j]].lastUsed)
  }

  ghost function Listed(order: seq<Key>, entries: map<Key, Entry>): (list: Recency)
    requires forall i :: 0 <= i < |order| ==> order[i] in entries
    ensures |list| == |order|
    ensures forall i :: 0 <= i < |list| ==> list[i] == (order[i], entries[order[i]].state)
  {
    seq(|order|, i requires 0 <= i < |order| => (order[i], entries[order[i]].state))
  }

  lemma ClockMoves(order: seq<Key>, entries: map<Key, Entry>, clock: nat)
    requires Ordered(order, entries, clock)
    ensures Ordered(order, entries, clock + 1)
  {
  }

  lemma ListedLookup(order: seq<Key>, entries: map<Key, Entry>, clock: nat, key: Key)
    requires Ordered(order, entries, clock)
    ensures var k := Position(Listed(order, entries), key);
      if key in entries then k < |order| && order[k] == key else k == |order|
    ensures Lookup(Listed(order, entries), key) == if key in entries then Some(entries[key].state) else None
  {
    var list := Listed(order, entries);
    var k := Position(list, key);
    if key in entries {
      var i :| 0 <= i < |order| && order[i] == key;
      assert list[i].0 == key;
    }
  }

  function RemoveAt<T>(list: seq<T>, k: nat): (rest: seq<T>)
    requires k < |list|
    ensures |rest| == |list| - 1
    ensures forall i :: 0 <= i < |rest| ==> rest[i] == list[if i < k then i else i + 1]
  {
    list[..k] + list[k + 1..]
  }

  /** Taking a key out of the order. */
  lemma RemoveKey(order: seq<Key>, entries: map<Key, Entry>, clock: nat, k: nat)
    requires Ordered(order, entries, clock) && k < |order|
    ensures Ordered(RemoveAt(order, k), entries - {order[k]}, clock)
    ensures Listed(RemoveAt(order, k), entries - {order[k]}) == RemoveAt(Listed(order, entries), k)
  {
    RemoveKeyOrder(order, entries, clock, k);
    RemoveKeyList(order, entries, clock, k);
  }

  lemma RemoveKeyOrder(order: seq<Key>, entries: map<Key, Entry>, clock: nat, k: nat)
    requires Ordered(order, entries, clock) && k < |order|
    ensures Ordered(RemoveAt(order, k), entries - {order[k]}, clock)
  {
    var rest, entries' := RemoveAt(order, k), entries - {order[k]};
    hide RemoveAt;
    assert forall i :: 0 <= i < |order| && i != k ==> order[i] != order[k];
    assert forall i :: 0 <= i < |rest| ==>
      rest[i] in entries' && entries'[rest[i]] == entries[order[if i < k then i else i + 1]];
    forall key <- entries' ensures key in rest {
      RestHas(order, k, key);
    }
  }

  lemma RestHas<T>(list: seq<T>, k: nat, x: T)
    requires k < |list| && x in list && x != list[k]
    ensures x in RemoveAt(list, k)
  {
    var i :| 0 <= i < |list| && list[i] == x;
    assert RemoveAt(list, k)[if i < k then i else i - 1] == x;
  }

  lemma RemoveKeyList(order: seq<Key>, entries: map<Key, Entry>, clock: nat, k: nat)
    requires Ordered(order, entries, clock) && k < |order|
    requires Ordered(RemoveAt(order, k), entries - {order[k]}, clock)
    ensures Listed(RemoveAt(order, k), entries - {order[k]}) == RemoveAt(Listed(order, entries), k)
  {
    hide RemoveAt, Listed;
    var rest := RemoveAt(order, k);
    assert forall i :: 0 <= i < |rest| ==> entries[rest[i]] == (entries - {order[k]})[rest[i]];
  }

  /** Writing an entry with a fresh stamp, for a key that is not in the map, puts it at the end. */
  lemma AddLast(order: seq<Key>, entries: map<Key, Entry>, clock: nat, key: Key, state: ThreadState)
    requires Ordered(order, entries, clock) && key !in entries
    ensures Ordered(order + [key], entries[key := Entry(state, clock + 1)], clock + 1)
    ensures Listed(order + [key], entries[key := Entry(state, clock + 1)]) == Listed(order, entries) + [(key, state)]
  {
    var after, entries' := order + [key], entries[key := Entry(state, clock + 1)];
    assert forall i :: 0 <= i < |order| ==> after[i] == order[i] && order[i] != key;
    assert after[|order|] == key;
    forall other <- entries' ensures other in after {
      if other != key { assert other in order; }
    }
  }

  /** Writing an entry with a fresh stamp puts its key at the end of the order. */
  lemma MoveToEnd(order: seq<Key>, entries: map<Key, Entry>, clock: nat, key: Key,
      state: ThreadState) returns (after: seq<Key>)
    requires Ordered(order, entries, clock)
    ensures Ordered(after, entries[key := Entry(state, clock + 1)], clock + 1)
    ensures Listed(after, entries[key := Entry(state, clock + 1)])
      == Without(Listed(order, entries), key) + [(key, state)]
  {
    ListedLookup(order, entries, clock, key);
    hide Ordered;
    var k := Position(Listed(order, entries), key);
    var fewer := entries;
    after := order;
    if k < |order| {
      RemoveKey(order, entries, clock, k);
      after, fewer := RemoveAt(order, k), entries - {key};
    }
    AddLast(after, fewer, clock, key, state);
    assert fewer[key := Entry(state, clock + 1)] == entries[key := Entry(state, clock + 1)];
    after := after + [key];
  }

  /** A lookup: a known key moves to the end with a fresh stamp, an unknown one changes nothing but the clock. */
  lemma TouchedOrder(order: seq<Key>, entries: map<Key, Entry>, clock: nat, key: Key) returns (after: seq<Key>)
    requires Ordered(order, entries, clock)
    ensures forall i :: 0 <= i < |order| ==> order[i] in entries
    ensures Lookup(Listed(order, entries), key) == if key in entries then Some(entries[key].state) else None
    ensures key !in entries ==>
      Ordered(order, entries, clock + 1) && Touch(Listed(order, entries), key) == Listed(order, entries)
    ensures key in entries ==>
      var entries' := entries[key := Entry(entries[key].state, clock + 1)];
      && Ordered(after, entries', clock + 1) && |after| == |order|
           && (forall i :: 0 <= i < |after| ==> after[i] in entries')
      && Listed(after, entries') == Touch(Listed(order, entries), key)
  {
    after := order;
    ListedLookup(order, entries, clock, key);
    ClockMoves(order, entries, clock);
    if key in entries {
      SizesKept(Listed(order, entries), 0, key, entries[key].state);
      after := MoveToEnd(order, entries, clock, key, entries[key].state);
      hide Position, Without;
    }
  }

  /** The keys `remove_paths` keeps, in order. */
  ghost function KeptKeys(order: seq<Key>, entries: map<Key, Entry>, paths: set<Path>): (kept: seq<Key>)
    requires forall i :: 0 <= i < |order| ==> order[i] in entries
    ensures forall i :: 0 <= i < |kept| ==>
      kept[i] in order && kept[i] in entries && entries[kept[i]].state.path !in paths
  {
    if order == [] then []
    else
      var rest := KeptKeys(order[..|order| - 1], entries, paths);
      if entries[order[|order| - 1]].state.path in paths then rest else rest + [order[|order| - 1]]
  }

  lemma {:induction false} KeptIsListed(order: seq<Key>, entries: map<Key, Entry>, paths: set<Path>)
    requires forall i :: 0 <= i < |order| ==> order[i] in entries
    ensures Listed(KeptKeys(order, entries, paths), entries) == RemovePaths(Listed(order, entries), paths)
    ensures forall key <- order :: entries[key].state.path !in paths ==> key in KeptKeys(order, entries, paths)
    ensures |KeptKeys(order, entries, paths)| <= |order|
  {
    if order == [] {
    } else {
      var init, last := order[..|order| - 1], order[|order| - 1];
      KeptIsListed(init, entries, paths);
      hide Listed;
      assert Listed(order, entries)[..|order| - 1] == Listed(init, entries);
      var rest := KeptKeys(init, entries, paths);
      assert Listed(rest + [last], entries) == Listed(rest, entries) + [Listed(order, entries)[|order| - 1]];
      assert order == init + [last];
    }
  }

  ghost predicate StampsIncrease(keys: seq<Key>, entries: map<Key, Entry>) {
    && (forall i :: 0 <= i < |keys| ==> keys[i] in entries)
    && (forall i, j :: 0 <= i < j < |keys| ==> entries[keys[i]].lastUsed < entries[keys[j]].lastUsed)
  }

  lemma {:induction false} KeptIsOrdered(order: seq<Key>, entries: map<Key, Entry>, paths: set<Path>)
    requires StampsIncrease(order, entries)
    ensures StampsIncrease(KeptKeys(order, entries, paths), entries)
  {
    if order == [] {
    } else {
      var init, last := order[..|order| - 1], order[|order| - 1];
      KeptIsOrdered(init, entries, paths);
      LastIsLatest(order, entries, KeptKeys(init, entries, paths));
    }
  }

  /** The last of the keys may follow any keys before it. */
  lemma LastIsLatest(order: seq<Key>, entries: map<Key, Entry>, rest: seq<Key>)
    requires StampsIncrease(order, entries) && StampsIncrease(rest, entries) && order != []
    requires forall i :: 0 <= i < |rest| ==> rest[i] in order[..|order| - 1]
    ensures StampsIncrease(rest + [order[|order| - 1]], entries)
  {
    var init, last := order[..|order| - 1], order[|order| - 1];
    forall i | 0 <= i < |rest| ensures entries[rest[i]].lastUsed < entries[last].lastUsed {
      assert rest[i] in init;
      var m :| 0 <= m < |init| && init[m] == rest[i];
      assert order[m] == rest[i];
    }
  }

  /** `retain` */
  function Retained(entries: map<Key, Entry>, paths: set<Path>): map<Key, Entry> {
    map key | key in entries && entries[key].state.path !in paths :: entries[key]
  }

  /** The keys that are kept order the entries that are kept, and list what the removal leaves. */
  lemma KeptStays(order: seq<Key>, entries: map<Key, Entry>, clock: nat, paths: set<Path>)
    requires Ordered(order, entries, clock)
    ensures forall i :: 0 <= i < |order| ==> order[i] in entries
    ensures var kept := KeptKeys(order, entries, paths);
      && Ordered(kept, Retained(entries, paths), clock) && |kept| <= |order|
      && (forall i :: 0 <= i < |kept| ==> kept[i] in Retained(entries, paths))
      && Listed(kept, Retained(entries, paths)) == RemovePaths(Listed(order, entries), paths)
  {
    var kept, entries' := KeptKeys(order, entries, paths), Retained(entries, paths);
    KeptIsListed(order, entries, paths);
    KeptIsOrdered(order, entries, paths);
    hide KeptKeys;
    assert forall i :: 0 <= i < |kept| ==> kept[i] in kept;
    assert Listed(kept, entries') == Listed(kept, entries);
  }

  lemma {:induction false} OrderSize(order: seq<Key>, keys: set<Key>)
    requires forall i, j :: 0 <= i < j < |order| ==> order[i] != order[j]
    requires forall key :: key in keys <==> key in order
    ensures |keys| == |order|
  {
    if order != [] {
      var init, last := order[..|order| - 1], order[|order| - 1];
      assert order == init + [last];
      OrderSize(init, keys - {last});
    } else {
      assert keys == {};
    }
  }

  lemma MapSize(order: seq<Key>, entries: map<Key, Entry>, clock: nat)
    requires Ordered(order, entries, clock)
    ensures |entries| == |order|
  {
    OrderSize(order, entries.Keys);
  }

  class ThreadIndex {
    var entries: map<Key, Entry>
    var clock: nat
    const maxEntries: nat
    ghost var order: seq<Key>

    constructor (limit: nat)
      ensures Valid() && Contents() == [] && maxEntries == limit && clock == 0
    {
      entries, clock, order := map[], 0, [];
      maxEntries := limit;
    }

    ghost predicate Valid()
      reads this
    {
      Ordered(order, entries, clock) && (maxEntries > 0 ==> |order| <= maxEntries)
    }

    ghost function Contents(): Recency
      reads this
      requires Valid()
    {
      Listed(order, entries)
    }

    /** The index never holds more entries than its limit. */
    lemma SizeIsBounded()
      requires Valid() && maxEntries > 0
      ensures |entries| <= maxEntries
    {
      MapSize(order, entries, clock);
    }

    method Get(key: Key) returns (state: Option<ThreadState>)
      requires Valid() && clock + 1 < ClockWrap
      modifies this
      ensures Valid() && clock == old(clock) + 1
      ensures state == Lookup(old(Contents()), key)
      ensures Contents() == Touch(old(Contents()), key)
    {
      hide Ordered, Listed, Touch, Lookup;
      ghost var after := TouchedOrder(order, entries, clock, key);
      clock := (clock + 1) % ClockWrap;
      if key !in entries { return None; }
      state := Some(entries[key].state);
      order := after;
      entries := entries[key := Entry(state.value, clock)];
    }

    method Put(key: Key, state: ThreadState)
      requires Valid() && clock + 1 < ClockWrap
      modifies this
      ensures Valid() && clock == old(clock) + 1
      ensures Contents() == Insert(old(Contents()), maxEntries, key, state)
    {
      hide Ordered, MakeRoom, Listed, Without;
      SizesKept(Contents(), maxEntries, key, state);
      PrepareFor(key);
      ghost var before := clock;
      clock := (clock + 1) % ClockWrap;
      order := MoveToEnd(order, entries, before, key, state);
      entries := entries[key := Entry(state, clock)];
    }

    /** A full map gives up its least recently used entry to a new key. */
    method PrepareFor(key: Key)
      requires Valid()
      modifies this
      ensures Valid() && clock == old(clock)
      ensures Contents() == MakeRoom(old(Contents()), maxEntries, key)
    {
      hide Ordered;
      ListedLookup(order, entries, clock, key);
      MapSize(order, entries, clock);
      ghost var list := Contents();
      if |entries| >= maxEntries && key !in entries && entries != map[] {
        var evicted := LeastRecentlyUsed();
        RemoveKey(order, entries, clock, 0);
        assert RemoveAt(list, 0) == list[1..];
        entries := entries - {evicted};
        order := RemoveAt(order, 0);
      }
    }

    /** `min_by_key` over the entries: the loop keeps the smallest stamp seen. */
    method LeastRecentlyUsed() returns (evicted: Key)
      requires Valid() && entries != map[]
      ensures order != [] && evicted == order[0]
    {
      var todo := entries.Keys;
      evicted :| evicted in todo;
      while todo != {}
        invariant todo <= entries.Keys && evicted in entries
        invariant forall key <- entries.Keys - todo :: entries[evicted].lastUsed <= entries[key].lastUsed
        decreases |todo|
      {
        var key :| key in todo;
        if entries[key].lastUsed < entries[evicted].lastUsed { evicted := key; }
        todo := todo - {key};
      }
      assert evicted in order;
      assert order[0] in entries;
    }

    method Remove(paths: set<Path>)
      requires Valid()
      modifies this
      ensures Valid() && clock == old(clock)
      ensures Contents() == RemovePaths(old(Contents()), paths)
    {
      hide Ordered, Listed, KeptKeys;
      KeptStays(order, entries, clock, paths);
      order := KeptKeys(order, entries, paths);
      entries := Retained(entries, paths);
    }
  }
}
