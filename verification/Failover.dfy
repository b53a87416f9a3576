/**
 Trying providers in turn: the order candidates are selected in (`store/storage/access.rs`), the registry
 of resting providers (`service/failover.rs`), retries (`outbound/client.rs`) and the loop over candidates
 (`inbound/v1/candidates.rs`). Latency averages are exact; every reading of the clock is a later one.
 */
module Failover {
  import opened Basics

  // ----- Errors -----

  /** `AppError`, as far as these components tell errors apart. */
  datatype AppError = Upstream(status: Option<nat>) | UpstreamInvalidResponse | OtherError(message: string)

  predicate IsRetryable(e: AppError) {
    e.Upstream? && (e.status.None? || e.status.value == 408 || e.status.value == 429 || 500 <= e.status.value <= 599)
  }

  predicate IsFailoverable(e: AppError) {
    e.Upstream? || e.UpstreamInvalidResponse?
  }

  const Second: nat := 1_000_000_000

  const MaxRest: nat := 600 * Second

  /** `rest_base` */
  function RestBase(e: AppError): Option<nat> {
    match e
    case Upstream(None) => Some(60 * Second)
    case Upstream(Some(status)) =>
      if 401 <= status <= 403 then Some(300 * Second)
      else if status == 408 || status == 429 || 500 <= status <= 599 then Some(60 * Second)
      else None
    case UpstreamInvalidResponse => Some(60 * Second)
    case OtherError(_) => None
  }

  /**
   What an error means for its provider, by the status behind it: refused credentials rest five minutes,
   overload, timeouts, lost connections and unreadable answers one minute, any other answer not at all. The
   failures worth retrying are the upstream's that rest one minute; every upstream failure lets another
   candidate try, and no other error does.
   */
  lemma ErrorsMean(e: AppError)
    ensures RestBase(e) == Some(300_000_000_000) <==> e.Upstream? && e.status in {Some(401), Some(402), Some(403)}
    ensures RestBase(e) == Some(60_000_000_000) <==>
      || e.UpstreamInvalidResponse?
      || (e.Upstream? && (e.status.None? || e.status.value in {408, 429} || 500 <= e.status.value < 600))
    ensures RestBase(e) in {None, Some(60_000_000_000), Some(300_000_000_000)}
    ensures IsRetryable(e) <==> e.Upstream? && RestBase(e) == Some(60_000_000_000)
    ensures IsFailoverable(e) <==> !e.OtherError?
  {
  }

  // ----- The registry -----

  datatype RestEntry = RestEntry(until: nat, consecutive: nat)

  type Rests = map<string, RestEntry>

  const MaxU32: nat := 0xFFFF_FFFF

  function Pow2(n: nat): nat {
    if n == 0 then 1 else 2 * Pow2(n - 1)
  }

  /** Whether a provider is resting at an instant: what the registry means, expired entries included. */
  predicate RestingAt(rests: Rests, id: string, now: nat) {
    id in rests && rests[id].until > now
  }

  /** How many failures in a row the rest that begins now is the last of. */
  function StreakAt(rests: Rests, id: string, now: nat): nat {
    if RestingAt(rests, id, now) then Min(rests[id].consecutive + 1, MaxU32) else 1
  }

  /** The rest after the k-th failure in a row. */
  function RestDuration(base: nat, k: nat): nat {
    Min(base * Pow2(Min(if k == 0 then 0 else k - 1, 10)), MaxRest)
  }

  function Rested(rests: Rests, id: string, base: nat, now: nat): Rests {
    var k := StreakAt(rests, id, now);
    rests[id := RestEntry(now + RestDuration(base, k), k)]
  }

  function Cleared(rests: Rests, id: string): Rests {
    rests - {id}
  }

  /** `resting` forgets an entry once it has expired. */
  function Swept(rests: Rests, id: string, now: nat): Rests {
    if id in rests && rests[id].until <= now then rests - {id} else rests
  }

  /** Readings of the monotonic clock, numbered in the order they are taken. */
  datatype Clock = Clock(at: nat -> nat)
  {
    ghost predicate Monotone() {
      forall i: nat, j: nat :: i <= j ==> at(i) <= at(j)
    }
  }

  class FailoverRegistry {
    const clock: Clock
    var rests: Rests
    var ticks: nat

    constructor (clock: Clock)
      ensures rests == map[] && ticks == 0 && this.clock == clock
    {
      this.clock, rests, ticks := clock, map[], 0;
    }

    method Rest(id: string, base: nat) returns (duration: nat)
      modifies this
      ensures ticks == old(ticks) + 1
      ensures rests == Rested(old(rests), id, base, clock.at(old(ticks)))
      ensures duration == RestDuration(base, StreakAt(old(rests), id, clock.at(old(ticks))))
    {
      var now := clock.at(ticks);
      ticks := ticks + 1;
      var consecutive := 1;
      if id in rests && rests[id].until > now { consecutive := Min(rests[id].consecutive + 1, MaxU32); }
      var shift := Min(if consecutive == 0 then 0 else consecutive - 1, 10);
      duration := Min(base * Pow2(shift), MaxRest);
      rests := rests[id := RestEntry(now + duration, consecutive)];
    }

    method Clear(id: string)
      modifies this
      ensures rests == Cleared(old(rests), id) && ticks == old(ticks)
    {
      rests := rests - {id};
    }

    method Resting(id: string) returns (resting: bool)
      modifies this
      ensures ticks == old(ticks) + 1
      ensures resting == RestingAt(old(rests), id, clock.at(old(ticks)))
      ensures rests == Swept(old(rests), id, clock.at(old(ticks)))
    {
      var now := clock.at(ticks);
      ticks := ticks + 1;
      if id !in rests { return false; }
      if rests[id].until > now { return true; }
      rests := rests - {id};
      resting := false;
    }
  }

  /** Forgetting expired entries is never observable later on. */
  lemma SweepIsInvisible(rests: Rests, swept: string, id: string, now: nat, later: nat)
    requires now <= later
    ensures RestingAt(Swept(rests, swept, now), id, later) == RestingAt(rests, id, later)
    ensures StreakAt(Swept(rests, swept, now), id, later) == StreakAt(rests, id, later)
  {
  }

  /** The registry after failures at the given times, with the given bases. */
  function RestRun(rests: Rests, id: string, bases: seq<nat>, times: seq<nat>): Rests
    requires |bases| == |times|
  {
    if bases == [] then rests
    else
      var n := |bases| - 1;
      Rested(RestRun(rests, id, bases[..n], times[..n]), id, bases[n], times[n])
  }

  /** Each failure comes while the provider still rests from the one before. */
  ghost predicate Unbroken(rests: Rests, id: string, bases: seq<nat>, times: seq<nat>)
    requires |bases| == |times|
  {
    && (|times| > 0 ==> !RestingAt(rests, id, times[0]))
    && forall k :: 0 < k < |times| ==> RestingAt(RestRun(rests, id, bases[..k], times[..k]), id, times[k])
  }

  function RestEntryOf(rests: Rests, id: string): Option<RestEntry> {
    if id in rests then Some(rests[id]) else None
  }

  /** Back-off: the k-th failure of an unbroken streak rests min(600 s, base * 2^min(k-1, 10)). */
  lemma {:induction false} StreakBacksOff(rests: Rests, id: string, bases: seq<nat>, times: seq<nat>)
    requires 0 < |bases| == |times| <= MaxU32 && Unbroken(rests, id, bases, times)
    ensures RestEntryOf(RestRun(rests, id, bases, times), id)
         == Some(RestEntry(times[|bases| - 1] + RestDuration(bases[|bases| - 1], |bases|), |bases|))
  {
    hide RestDuration;
    var n := |bases| - 1;
    if n > 0 {
      UnbrokenInit(rests, id, bases, times);
      StreakBacksOff(rests, id, bases[..n], times[..n]);
    } else {
      assert RestRun(rests, id, bases[..0], times[..0]) == rests;
    }
  }

  lemma UnbrokenInit(rests: Rests, id: string, bases: seq<nat>, times: seq<nat>)
    requires 1 < |bases| == |times| && Unbroken(rests, id, bases, times)
    ensures var n := |bases| - 1;
      Unbroken(rests, id, bases[..n], times[..n]) && RestingAt(RestRun(rests, id, bases[..n], times[..n]), id, times[n])
  {
    hide RestRun, RestingAt;
    var n := |bases| - 1;
    assert forall k :: 0 < k < n ==> bases[..n][..k] == bases[..k] && times[..n][..k] == times[..k];
  }

  lemma {:induction false} PowersGrow(a: nat, b: nat)
    requires a <= b
    ensures 1 <= Pow2(a) <= Pow2(b)
    decreases b
  {
    if a < b { PowersGrow(a, b - 1); } else if b > 0 { PowersGrow(a - 1, b - 1); }
  }

  /** Rests never shorten along a streak and never exceed ten minutes. */
  lemma RestsGrowToCap(base: nat, k: nat)
    ensures RestDuration(base, k) <= RestDuration(base, k + 1) <= MaxRest
    ensures k >= 1 && base >= Second ==> RestDuration(base, k + 10) == MaxRest
  {
    var a, b := Min(if k == 0 then 0 else k - 1, 10), Min(k, 10);
    PowersGrow(a, b);
    assert base * Pow2(a) <= base * Pow2(b);
    assert Pow2(10) == 1024 by { assert Pow2(5) == 32; assert Pow2(8) == 256; }
    assert base >= Second ==> base * 1024 >= MaxRest;
  }

  /** Each failure of a streak doubles the rest, up to ten minutes; from the eleventh on it stays. */
  lemma RestsDouble(base: nat, k: nat)
    requires k >= 1
    ensures RestDuration(base, 1) == Min(base, 600_000_000_000)
    ensures k <= 10 ==> RestDuration(base, k + 1) == Min(2 * RestDuration(base, k), 600_000_000_000)
    ensures k >= 11 ==> RestDuration(base, k) == RestDuration(base, 11)
  {
    assert Pow2(0) == 1;
    if k <= 10 {
      var p := Pow2(k - 1);
      assert Pow2(k) == 2 * p;
      assert base * (2 * p) == 2 * (base * p);
    }
  }

  // ----- Selecting candidates -----

  datatype Candidate = Candidate(provider: string, model: string)

  /** One recorded activity: its provider and its upstream latency. */
  datatype Row = Row(provider: Option<string>, latency: Option<int>)

  function Sum(rows: seq<Row>, id: string): int {
    if rows == [] then 0
    else
      var last := rows[|rows| - 1];
      Sum(rows[..|rows| - 1], id) + (if last.provider == Some(id) && last.latency.Some? then last.latency.value else 0)
  }

  function Count(rows: seq<Row>, id: string): nat {
    if rows == [] then 0
    else
      var last := rows[|rows| - 1];
      Count(rows[..|rows| - 1], id) + (if last.provider == Some(id) && last.latency.Some? then 1 else 0)
  }

  /** `provider_average_latencies`: the accumulation loop and the division. */
  method AverageLatencies(rows: seq<Row>) returns (averages: map<string, real>)
    ensures forall id :: id in averages <==> Count(rows, id) > 0
    ensures forall id <- averages :: averages[id] == Sum(rows, id) as real / Count(rows, id) as real
  {
    hide Sum, Count;
    var totals: map<string, (int, nat)> := map[];
    NothingMeasured();
    assert rows[..0] == [];
    for i := 0 to |rows|
      invariant forall id :: id in totals <==> Count(rows[..i], id) > 0
      invariant forall id <- totals :: totals[id] == (Sum(rows[..i], id), Count(rows[..i], id))
      invariant forall id :: Count(rows[..i], id) == 0 ==> Sum(rows[..i], id) == 0
    {
      OneMoreRow(rows, i);
      var row := rows[i];
      if row.provider.Some? && row.latency.Some? {
        var id := row.provider.value;
        var total := if id in totals then totals[id] else (0, 0);
        totals := totals[id := (total.0 + row.latency.value, total.1 + 1)];
      }
    }
    assert rows[..|rows|] == rows;
    averages := map id | id in totals :: totals[id].0 as real / totals[id].1 as real;
  }

  lemma NothingMeasured()
    ensures forall id :: Sum([], id) == 0 && Count([], id) == 0
  {
  }

  lemma OneMoreRow(rows: seq<Row>, i: nat)
    requires i < |rows|
    ensures forall id ::
      Count(rows[..i + 1], id)
        == Count(rows[..i], id) + (if rows[i].provider == Some(id) && rows[i].latency.Some? then 1 else 0)
    ensures forall id ::
      Sum(rows[..i + 1], id)
        == Sum(rows[..i], id)
          + (if rows[i].provider == Some(id) && rows[i].latency.Some? then rows[i].latency.value else 0)
  {
    var some := rows[..i + 1];
    assert some[..|some| - 1] == rows[..i] && some[|some| - 1] == rows[i];
  }

  /** Sum and count add up over lists of rows, and a row counts for its own provider when it was measured. */
  lemma {:induction false} RowsAddUp(a: seq<Row>, b: seq<Row>, id: string)
    ensures Sum(a + b, id) == Sum(a, id) + Sum(b, id) && Count(a + b, id) == Count(a, id) + Count(b, id)
  {
    if b == [] {
      assert a + b == a;
    } else {
      assert (a + b)[..|a + b| - 1] == a + b[..|b| - 1];
      RowsAddUp(a, b[..|b| - 1], id);
    }
  }

  lemma OneRow(row: Row, id: string)
    ensures Sum([row], id) == match (row.provider, row.latency)
      case (Some(provider), Some(latency)) => if provider == id then latency else 0
      case _ => 0
    ensures Count([row], id) == if row.provider == Some(id) && row.latency.Some? then 1 else 0
  {
    assert [row][..0] == [];
  }

  /** Measured providers first, faster before slower; unmeasured ones are all alike. */
  predicate NotSlower(latencies: map<string, real>, a: Candidate, b: Candidate) {
    if a.provider in latencies && b.provider in latencies then latencies[a.provider] <= latencies[b.provider]
    else a.provider in latencies || b.provider !in latencies
  }

  predicate SameRank(latencies: map<string, real>, a: Candidate, b: Candidate) {
    NotSlower(latencies, a, b) && NotSlower(latencies, b, a)
  }

  function InsertByRank(latencies: map<string, real>, x: Candidate, sorted: seq<Candidate>): seq<Candidate> {
    if sorted == [] || NotSlower(latencies, x, sorted[0]) then [x] + sorted
    else [sorted[0]] + InsertByRank(latencies, x, sorted[1..])
  }

  /** `sort_by`, the standard library's stable sort. */
  function StableSort(latencies: map<string, real>, cs: seq<Candidate>): seq<Candidate> {
    if cs == [] then [] else InsertByRank(latencies, cs[0], StableSort(latencies, cs[1..]))
  }

  predicate Ranked(latencies: map<string, real>, cs: seq<Candidate>) {
    forall i, j :: 0 <= i < j < |cs| ==> NotSlower(latencies, cs[i], cs[j])
  }

  /** The candidates that rank like `x`, in order. */
  function LikeRank(latencies: map<string, real>, cs: seq<Candidate>, x: Candidate): seq<Candidate> {
    if cs == [] then []
    else (if SameRank(latencies, cs[0], x) then [cs[0]] else []) + LikeRank(latencies, cs[1..], x)
  }

  lemma {:induction false} InsertRanks(latencies: map<string, real>, x: Candidate, sorted: seq<Candidate>)
    requires Ranked(latencies, sorted)
    ensures var r := InsertByRank(latencies, x, sorted);
      Ranked(latencies, r) && multiset(r) == multiset{x} + multiset(sorted)
  {
    if sorted != [] && !NotSlower(latencies, x, sorted[0]) {
      var rest := InsertByRank(latencies, x, sorted[1..]);
      InsertRanks(latencies, x, sorted[1..]);
      assert sorted == [sorted[0]] + sorted[1..];
      NotSlowerTotal(latencies, x, sorted[0]);
      hide NotSlower;
      forall j | 0 <= j < |rest| ensures NotSlower(latencies, sorted[0], rest[j]) {
        assert rest[j] in multiset(rest);
        assert rest[j] == x || rest[j] in sorted[1..];
      }
    } else {
      assert multiset([x] + sorted) == multiset{x} + multiset(sorted);
      if sorted != [] { BeforeAll(latencies, x, sorted); }
    }
  }

  lemma NotSlowerTotal(latencies: map<string, real>, a: Candidate, b: Candidate)
    ensures NotSlower(latencies, a, b) || NotSlower(latencies, b, a)
  {
  }

  lemma NotSlowerChains(latencies: map<string, real>, a: Candidate, b: Candidate, c: Candidate)
    requires NotSlower(latencies, a, b) && NotSlower(latencies, b, c)
    ensures NotSlower(latencies, a, c)
  {
  }

  lemma BeforeAll(latencies: map<string, real>, x: Candidate, sorted: seq<Candidate>)
    requires Ranked(latencies, sorted) && sorted != [] && NotSlower(latencies, x, sorted[0])
    ensures Ranked(latencies, [x] + sorted)
  {
    hide NotSlower;
    forall j | 0 <= j < |sorted| ensures NotSlower(latencies, x, sorted[j]) {
      if j > 0 { NotSlowerChains(latencies, x, sorted[0], sorted[j]); }
    }
  }

  lemma {:induction false} InsertIsStable(latencies: map<string, real>, x: Candidate, sorted: seq<Candidate>,
      y: Candidate)
    requires Ranked(latencies, sorted)
    ensures LikeRank(latencies, InsertByRank(latencies, x, sorted), y) == LikeRank(latencies, [x] + sorted, y)
  {
    if sorted != [] && !NotSlower(latencies, x, sorted[0]) {
      var rest := InsertByRank(latencies, x, sorted[1..]);
      InsertIsStable(latencies, x, sorted[1..], y);
      assert ([sorted[0]] + rest)[1..] == rest;
      assert ([x] + sorted)[1..] == sorted && ([x] + sorted[1..])[1..] == sorted[1..];
      assert !(SameRank(latencies, x, y) && SameRank(latencies, sorted[0], y));
    }
  }

  /** The sort orders by latency, loses no candidate and keeps the given order among equals. */
  lemma {:induction false} SortIsStable(latencies: map<string, real>, cs: seq<Candidate>, y: Candidate)
    ensures var r := StableSort(latencies, cs);
      Ranked(latencies, r) && multiset(r) == multiset(cs) && LikeRank(latencies, r, y) == LikeRank(latencies, cs, y)
  {
    if cs == [] {
    } else {
      hide Ranked, InsertByRank, NotSlower, SameRank;
      var rest := StableSort(latencies, cs[1..]);
      SortIsStable(latencies, cs[1..], y);
      InsertRanks(latencies, cs[0], rest);
      InsertIsStable(latencies, cs[0], rest, y);
      assert cs == [cs[0]] + cs[1..];
      assert ([cs[0]] + rest)[1..] == rest;
    }
  }

  /** Behind an unmeasured candidate there are only unmeasured ones, and of two measured ones the faster is first. */
  lemma FastestFirst(latencies: map<string, real>, cs: seq<Candidate>, i: nat, j: nat)
    requires i < j < |StableSort(latencies, cs)|
    ensures var a, b := StableSort(latencies, cs)[i].provider, StableSort(latencies, cs)[j].provider;
      b in latencies ==> a in latencies && latencies[a] <= latencies[b]
  {
    hide StableSort, LikeRank;
    SortIsStable(latencies, cs, Candidate("", ""));
  }

  lemma SortLosesNothing(latencies: map<string, real>, cs: seq<Candidate>)
    ensures multiset(StableSort(latencies, cs)) == multiset(cs)
  {
    hide Ranked, LikeRank;
    SortIsStable(latencies, cs, Candidate("", ""));
  }

  function FirstOf(cs: seq<Candidate>, provider: string): (k: nat)
    ensures k <= |cs|
    ensures k < |cs| ==> cs[k].provider == provider
    ensures forall i :: 0 <= i < k ==> cs[i].provider != provider
  {
    if cs == [] || cs[0].provider == provider then 0 else 1 + FirstOf(cs[1..], provider)
  }

  /** `select_candidates`: the remembered provider in front, the others by latency. */
  method SelectCandidates(given: seq<Candidate>, latencies: map<string, real>, remembered: Option<string>)
    returns (selected: seq<Candidate>)
    ensures multiset(selected) == multiset(given)
    ensures |given| < 2 ==> selected == given
    ensures |given| >= 2 ==>
      var k := if remembered.Some? then FirstOf(given, remembered.value) else |given|;
      if k < |given|
      then selected == [given[k]] + StableSort(latencies, given[..k] + given[k + 1..])
      else selected == StableSort(latencies, given)
  {
    hide StableSort;
    var candidates := given;
    if |candidates| < 2 { return candidates; }
    if remembered.Some? {
      var index := FirstOf(candidates, remembered.value);
      if index < |candidates| {
        var active := candidates[index];
        candidates := candidates[..index] + candidates[index + 1..];
        SortLosesNothing(latencies, candidates);
        assert given == given[..index] + [active] + given[index + 1..];
        candidates := StableSort(latencies, candidates);
        return [active] + candidates;
      }
    }
    SortLosesNothing(latencies, candidates);
    return StableSort(latencies, candidates);
  }

  // ----- Ready first, resting last -----

  /** The candidates whose flag has the given value, in order. */
  function Flagged(cs: seq<Candidate>, flags: seq<bool>, value: bool): seq<Candidate>
    requires |cs| == |flags|
  {
    if cs == [] then []
    else
      var n := |cs| - 1;
      Flagged(cs[..n], flags[..n], value) + (if flags[n] == value then [cs[n]] else [])
  }

  /** The flagged candidates are those at the positions with that flag, in order. */
  lemma {:induction false} FlaggedAre(cs: seq<Candidate>, flags: seq<bool>, value: bool) returns (which: seq<nat>)
    requires |cs| == |flags|
    ensures |which| == |Flagged(cs, flags, value)|
    ensures forall k :: 0 <= k < |which| ==>
      which[k] < |cs| && flags[which[k]] == value && Flagged(cs, flags, value)[k] == cs[which[k]]
    ensures forall k :: 0 < k < |which| ==> which[k - 1] < which[k]
    ensures forall i :: 0 <= i < |cs| && flags[i] == value ==> i in which
  {
    if cs == [] {
      which := [];
    } else {
      var n := |cs| - 1;
      which := FlaggedAre(cs[..n], flags[..n], value);
      if flags[n] == value { which := which + [n]; }
    }
  }

  lemma FlaggedSnoc(cs: seq<Candidate>, flags: seq<bool>, c: Candidate, flag: bool, value: bool)
    requires |cs| == |flags|
    ensures Flagged(cs + [c], flags + [flag], value) == Flagged(cs, flags, value) + (if flag == value then [c] else [])
  {
    assert (cs + [c])[..|cs|] == cs && (flags + [flag])[..|flags|] == flags;
  }

  lemma Multisets<T>(a: seq<T>, b: seq<T>, c: seq<T>, x: T)
    requires multiset(a + b) == multiset(c)
    ensures multiset(a + [x] + b) == multiset(c + [x]) == multiset(a + (b + [x]))
  {
    assert a + (b + [x]) == a + b + [x];
    assert multiset(a + [x] + b) == multiset(a) + multiset([x]) + multiset(b);
  }

  lemma FlaggedPartsSnoc(cs: seq<Candidate>, flags: seq<bool>, c: Candidate, flag: bool)
    requires |cs| == |flags|
    requires multiset(Flagged(cs, flags, false) + Flagged(cs, flags, true)) == multiset(cs)
    ensures multiset(Flagged(cs + [c], flags + [flag], false) + Flagged(cs + [c], flags + [flag], true))
      == multiset(cs + [c])
  {
    hide Flagged;
    var a, b := Flagged(cs, flags, false), Flagged(cs, flags, true);
    FlaggedSnoc(cs, flags, c, flag, false);
    FlaggedSnoc(cs, flags, c, flag, true);
    Multisets(a, b, cs, c);
    assert a + [] == a && b + [] == b;
  }

  lemma {:induction false} FlaggedParts(cs: seq<Candidate>, flags: seq<bool>)
    requires |cs| == |flags|
    ensures multiset(Flagged(cs, flags, false) + Flagged(cs, flags, true)) == multiset(cs)
  {
    hide Flagged;
    if cs == [] {
      EmptyFlagged();
    } else {
      var n := |cs| - 1;
      FlaggedParts(cs[..n], flags[..n]);
      FlaggedPartsSnoc(cs[..n], flags[..n], cs[n], flags[n]);
      assert cs[..n] + [cs[n]] == cs && flags[..n] + [flags[n]] == flags;
    }
  }

  /** At this instant the two registries give the same answer, and the next failure would count the same. */
  predicate SameAt(a: Rests, b: Rests, id: string, now: nat) {
    RestingAt(a, id, now) == RestingAt(b, id, now) && StreakAt(a, id, now) == StreakAt(b, id, now)
  }

  /** From this instant on the two registries say the same about every provider. */
  ghost predicate SameFrom(a: Rests, b: Rests, from: nat) {
    forall id, later: nat :: later >= from ==> SameAt(a, b, id, later)
  }

  lemma SameAsItself(rests: Rests, from: nat)
    ensures SameFrom(rests, rests, from)
  {
  }

  lemma SweptIsSame(a: Rests, b: Rests, swept: string, now: nat, next: nat)
    requires SameFrom(a, b, now) && now <= next
    ensures SameFrom(a, Swept(b, swept, now), next)
  {
    forall id, later: nat | later >= next
      ensures SameAt(a, Swept(b, swept, now), id, later)
    {
      assert SameAt(a, b, id, later);
      SweepIsInvisible(b, swept, id, now, later);
    }
  }

  /** The flag of each candidate, read at its own reading of the clock. */
  ghost predicate FlagsAt(cs: seq<Candidate>, flags: seq<bool>, rests: Rests, clock: Clock, start: nat) {
    |flags| == |cs| && forall i :: 0 <= i < |cs| ==> flags[i] == RestingAt(rests, cs[i].provider, clock.at(start + i))
  }

  /** `order_candidates`: a stable partition; asking about a candidate never changes a later answer. */
  method OrderCandidates(cs: seq<Candidate>, registry: FailoverRegistry)
    returns (ordered: seq<Candidate>, ghost flags: seq<bool>)
    requires registry.clock.Monotone()
    modifies registry
    ensures registry.ticks == old(registry.ticks) + |cs| && |flags| == |cs|
    ensures FlagsAt(cs, flags, old(registry.rests), registry.clock, old(registry.ticks))
    ensures ordered == Flagged(cs, flags, false) + Flagged(cs, flags, true)
    ensures SameFrom(old(registry.rests), registry.rests, registry.clock.at(registry.ticks))
  {
    hide Flagged, RestingAt, StreakAt, Swept;
    SameAsItself(registry.rests, registry.clock.at(registry.ticks));
    var resting: seq<Candidate>, ready: seq<Candidate> := [], [];
    flags := [];
    ghost var rests, start := registry.rests, registry.ticks;
    EmptyFlagged();
    for i := 0 to |cs|
      invariant registry.ticks == start + i
      invariant FlagsAt(cs[..i], flags, rests, registry.clock, start)
      invariant ready == Flagged(cs[..i], flags, false) && resting == Flagged(cs[..i], flags, true)
      invariant SameFrom(rests, registry.rests, registry.clock.at(start + i))
    {
      ghost var now, next := registry.clock.at(start + i), registry.clock.at(start + i + 1);
      assert SameAt(rests, registry.rests, cs[i].provider, now);
      SweptIsSame(rests, registry.rests, cs[i].provider, now, next);
      var isResting := registry.Resting(cs[i].provider);
      FlaggedSnoc(cs[..i], flags, cs[i], isResting, false);
      FlaggedSnoc(cs[..i], flags, cs[i], isResting, true);
      assert cs[..i + 1] == cs[..i] + [cs[i]];
      flags := flags + [isResting];
      if isResting { resting := resting + [cs[i]]; } else { ready := ready + [cs[i]]; }
    }
    assert cs[..|cs|] == cs;
    ordered := ready + resting;
  }

  lemma EmptyFlagged()
    ensures Flagged([], [], false) == [] && Flagged([], [], true) == []
  {
  }

  // ----- Retries and the run -----

  type Reply = Result<string, AppError>

  /** The upstream's replies: the k-th call of the run, whatever candidate it goes to. */
  datatype World = World(reply: (nat, Candidate) -> Reply)

  datatype Policy = Policy(maxRetries: nat, maxCandidates: Option<nat>)

  /** The n-th call of the run is answered with an error worth retrying. */
  predicate FailsForNow(world: World, candidate: Candidate, n: nat) {
    world.reply(n, candidate).Err? && IsRetryable(world.reply(n, candidate).error)
  }

  /**
   An attempt that starts with this call ends after `used` calls: the first reply not worth retrying, or the last
   allowed one.
   */
  ghost predicate EndsAttempt(policy: Policy, world: World, candidate: Candidate, call: nat, used: nat) {
    && 1 <= used <= policy.maxRetries + 1
    && (forall n :: call <= n < call + used - 1 ==> FailsForNow(world, candidate, n))
    && (FailsForNow(world, candidate, call + used - 1) ==> used == policy.maxRetries + 1)
  }

  /** `retry_with_policy` */
  method RetryWithPolicy(policy: Policy, world: World, candidate: Candidate, call: nat)
    returns (reply: Reply, used: nat)
    ensures EndsAttempt(policy, world, candidate, call, used)
    ensures reply == world.reply(call + used - 1, candidate)
  {
    for attempt := 0 to policy.maxRetries + 1
      invariant forall n :: call <= n < call + attempt ==> FailsForNow(world, candidate, n)
      invariant attempt <= policy.maxRetries
    {
      reply := world.reply(call + attempt, candidate);
      used := attempt + 1;
      if reply.Ok? { return; }
      if !(IsRetryable(reply.error) && attempt < policy.maxRetries) { return; }
    }
    assert false;
  }

  /** The replies determine where an attempt ends. */
  lemma AttemptIsUnique(policy: Policy, world: World, candidate: Candidate, call: nat, a: nat, b: nat)
    requires EndsAttempt(policy, world, candidate, call, a) && EndsAttempt(policy, world, candidate, call, b)
    ensures a == b
  {
    var failed := FailsForNow(world, candidate, call + Min(a, b) - 1);
  }

  /** What the run does with the order, `answers[i]` being the final reply of the i-th candidate tried. */
  ghost predicate RunShape(order: seq<Candidate>, limit: Option<nat>, answers: seq<Reply>,
                           noCandidate: AppError, result: Result<(string, string), AppError>)
  {
    var allowed := if limit.Some? then Min(limit.value, |order|) else |order|;
    && |answers| <= allowed
    && (forall i :: 0 <= i < |answers| - 1 ==> answers[i].Err? && IsFailoverable(answers[i].error))
    && if answers == [] then allowed == 0 && result == Err(noCandidate)
       else
         var last := answers[|answers| - 1];
         match last
         case Ok(response) => result == Ok((response, order[|answers| - 1].provider))
         case Err(e) => result == Err(e) && (IsFailoverable(e) ==> |answers| == allowed)
  }

  /** The answers are the final replies of consecutive attempts, the calls being numbered through. */
  ghost predicate AttemptsOf(policy: Policy, world: World, order: seq<Candidate>, answers: seq<Reply>,
      usage: seq<nat>)
  {
    && |answers| == |usage| <= |order|
    && forall i :: 0 <= i < |answers| ==>
         && EndsAttempt(policy, world, order[i], Total(usage[..i]), usage[i])
         && answers[i] == world.reply(Total(usage[..i]) + usage[i] - 1, order[i])
  }

  function Total(usage: seq<nat>): nat {
    if usage == [] then 0 else Total(usage[..|usage| - 1]) + usage[|usage| - 1]
  }

  lemma {:induction false} TotalIsBounded(usage: seq<nat>, each: nat)
    requires forall i :: 0 <= i < |usage| ==> usage[i] <= each
    ensures Total(usage) <= |usage| * each
  {
    if usage == [] {
    } else {
      TotalIsBounded(usage[..|usage| - 1], each);
      assert |usage| * each == (|usage| - 1) * each + each;
    }
  }

  lemma TotalSnoc(usage: seq<nat>, used: nat)
    ensures Total(usage + [used]) == Total(usage) + used
  {
    assert (usage + [used])[..|usage|] == usage;
  }

  /** Within the bound: each candidate is called at most `maxRetries + 1` times. */
  lemma CallsAreBounded(policy: Policy, world: World, order: seq<Candidate>, answers: seq<Reply>, usage: seq<nat>)
    requires AttemptsOf(policy, world, order, answers, usage)
    ensures Total(usage) <= |answers| * (policy.maxRetries + 1)
  {
    hide Total;
    TotalIsBounded(usage, policy.maxRetries + 1);
  }

  lemma AttemptsSnoc(policy: Policy, world: World, order: seq<Candidate>, answers: seq<Reply>, usage: seq<nat>,
      reply: Reply, used: nat)
    requires AttemptsOf(policy, world, order, answers, usage) && |answers| < |order|
    requires EndsAttempt(policy, world, order[|answers|], Total(usage), used)
    requires reply == world.reply(Total(usage) + used - 1, order[|answers|])
    ensures AttemptsOf(policy, world, order, answers + [reply], usage + [used])
  {
    hide EndsAttempt, Total;
    var more := usage + [used];
    assert more[..|usage|] == usage;
    forall i | 0 <= i < |usage| ensures more[..i] == usage[..i] && more[i] == usage[i] {}
  }

  /** The registry after the answers: failed providers that can be blamed rest, the answering one is cleared. */
  function AfterAnswers(rests: Rests, clock: Clock, tick: nat, order: seq<Candidate>, answers: seq<Reply>): (Rests, nat)
    requires |answers| <= |order|
  {
    if answers == [] then (rests, tick)
    else
      var n := |answers| - 1;
      var (before, t) := AfterAnswers(rests, clock, tick, order, answers[..n]);
      match answers[n]
      case Ok(_) => (Cleared(before, order[n].provider), t)
      case Err(e) =>
        if IsFailoverable(e) && RestBase(e).Some?
        then (Rested(before, order[n].provider, RestBase(e).value, clock.at(t)), t + 1)
        else (before, t)
  }

  /** Registries that say the same before the answers say the same behind them. */
  lemma {:induction false} AnswersSame(a: Rests, b: Rests, clock: Clock, tick: nat, order: seq<Candidate>,
      answers: seq<Reply>)
    requires |answers| <= |order| && clock.Monotone() && SameFrom(a, b, clock.at(tick))
    ensures var (a', t) := AfterAnswers(a, clock, tick, order, answers);
      var (b', u) := AfterAnswers(b, clock, tick, order, answers);
      t == u && SameFrom(a', b', clock.at(t))
  {
    hide RestBase, IsFailoverable, Rested, Cleared, SameFrom;
    if answers == [] {
    } else {
      var n := |answers| - 1;
      AnswersSame(a, b, clock, tick, order, answers[..n]);
      var (a', t) := AfterAnswers(a, clock, tick, order, answers[..n]);
      var (b', _) := AfterAnswers(b, clock, tick, order, answers[..n]);
      match answers[n]
      case Ok(_) => ClearedSame(a', b', order[n].provider, clock.at(t));
      case Err(e) =>
        if IsFailoverable(e) && RestBase(e).Some? {
          RestedSame(a', b', order[n].provider, RestBase(e).value, clock.at(t), clock.at(t + 1));
        }
    }
  }

  lemma ClearedSame(a: Rests, b: Rests, id: string, now: nat)
    requires SameFrom(a, b, now)
    ensures SameFrom(Cleared(a, id), Cleared(b, id), now)
  {
    forall other, later: nat | later >= now ensures SameAt(Cleared(a, id), Cleared(b, id), other, later) {
      assert SameAt(a, b, other, later);
    }
  }

  lemma RestedSame(a: Rests, b: Rests, id: string, base: nat, now: nat, next: nat)
    requires SameFrom(a, b, now) && now <= next
    ensures SameFrom(Rested(a, id, base, now), Rested(b, id, base, now), next)
  {
    hide RestDuration;
    assert SameAt(a, b, id, now);
    forall other, later: nat | later >= next
      ensures SameAt(Rested(a, id, base, now), Rested(b, id, base, now), other, later)
    {
      assert SameAt(a, b, other, later);
    }
  }

  /**
   `run_endpoint_model_candidates`: candidates are tried in the ready-then-resting order until one succeeds
   or fails for good; each answer leaves its mark on the registry.
   */
  method RunCandidates(given: seq<Candidate>, registry: FailoverRegistry, policy: Policy, world: World,
      noCandidate: AppError)
    returns (result: Result<(string, string), AppError>, calls: nat,
             ghost order: seq<Candidate>, ghost flags: seq<bool>, ghost answers: seq<Reply>, ghost usage: seq<nat>)
    requires registry.clock.Monotone()
    modifies registry
    ensures FlagsAt(given, flags, old(registry.rests), registry.clock, old(registry.ticks))
    ensures order == Flagged(given, flags, false) + Flagged(given, flags, true) && multiset(order) == multiset(given)
    ensures RunShape(order, policy.maxCandidates, answers, noCandidate, result)
    ensures AttemptsOf(policy, world, order, answers, usage)
    ensures calls == Total(usage) <= |answers| * (policy.maxRetries + 1)
    ensures var (rests, ticks) :=
      AfterAnswers(old(registry.rests), registry.clock, old(registry.ticks) + |given|, order, answers);
      registry.ticks == ticks && SameFrom(rests, registry.rests, registry.clock.at(ticks))
  {
    hide EndsAttempt, Flagged, Rested, Cleared, Total, SameFrom, AfterAnswers, AttemptsOf, FlagsAt, RestBase;
    var ordered;
    ordered, flags := OrderCandidates(given, registry);
    order := ordered;
    ghost var asked, tick := registry.rests, registry.ticks;
    FlaggedParts(given, flags);
    answers, usage := [], [];
    calls := 0;
    NothingUsed(policy, world, order, asked, registry.clock, tick);
    var lastError := noCandidate;
    var allowed := if policy.maxCandidates.Some? then Min(policy.maxCandidates.value, |ordered|) else |ordered|;
    for i := 0 to allowed
      invariant |answers| == |usage| == i && calls == Total(usage)
      invariant AttemptsOf(policy, world, order, answers, usage)
      invariant forall k :: 0 <= k < i ==> answers[k].Err? && IsFailoverable(answers[k].error)
      invariant if i == 0 then lastError == noCandidate else answers[i - 1] == Err(lastError)
      invariant (registry.rests, registry.ticks) == AfterAnswers(asked, registry.clock, tick, order, answers)
    {
      var reply, used := RetryWithPolicy(policy, world, ordered[i], calls);
      AttemptsSnoc(policy, world, order, answers, usage, reply, used);
      TotalSnoc(usage, used);
      CallsAreBounded(policy, world, order, answers + [reply], usage + [used]);
      calls := calls + used;
      AnswersSnoc(asked, registry.clock, tick, order, answers, reply);
      answers, usage := answers + [reply], usage + [used];
      match reply {
        case Ok(response) =>
          registry.Clear(ordered[i].provider);
          AnswersSame(old(registry.rests), asked, registry.clock, tick, order, answers);
          result := Ok((response, ordered[i].provider));
          return;
        case Err(error) =>
          if !IsFailoverable(error) {
            AnswersSame(old(registry.rests), asked, registry.clock, tick, order, answers);
            result := Err(error);
            return;
          }
          var base := RestBase(error);
          if base.Some? { var _ := registry.Rest(ordered[i].provider, base.value); }
          lastError := error;
      }
    }
    CallsAreBounded(policy, world, order, answers, usage);
    AnswersSame(old(registry.rests), asked, registry.clock, tick, order, answers);
    result := Err(lastError);
  }

  lemma NothingUsed(policy: Policy, world: World, order: seq<Candidate>, rests: Rests, clock: Clock, tick: nat)
    ensures Total([]) == 0 && AttemptsOf(policy, world, order, [], [])
    ensures AfterAnswers(rests, clock, tick, order, []) == (rests, tick)
  {
  }

  lemma AnswersSnoc(rests: Rests, clock: Clock, tick: nat, order: seq<Candidate>, answers: seq<Reply>, reply: Reply)
    requires |answers| < |order|
    ensures var (before, t) := AfterAnswers(rests, clock, tick, order, answers);
      AfterAnswers(rests, clock, tick, order, answers + [reply]) ==
        match reply
        case Ok(_) => (Cleared(before, order[|answers|].provider), t)
        case Err(e) =>
          if IsFailoverable(e) && RestBase(e).Some?
          then (Rested(before, order[|answers|].provider, RestBase(e).value, clock.at(t)), t + 1)
          else (before, t)
  {
    assert (answers + [reply])[..|answers|] == answers;
  }

  /** What a run leaves behind: an answering provider is not resting, and a blamed one rests from its failure on. */
  lemma RunLeavesMarks(rests: Rests, clock: Clock, tick: nat, order: seq<Candidate>, answers: seq<Reply>)
    requires 0 < |answers| <= |order|
    ensures var n := |answers| - 1;
      var (before, t) := AfterAnswers(rests, clock, tick, order, answers[..n]);
      var (after, _) := AfterAnswers(rests, clock, tick, order, answers);
      && (answers[n].Ok? ==> order[n].provider !in after)
      && (answers[n].Err? && IsFailoverable(answers[n].error) && RestBase(answers[n].error).Some? ==>
           && RestingAt(after, order[n].provider, clock.at(t))
           && after[order[n].provider].until ==
                clock.at(t)
                  + RestDuration(RestBase(answers[n].error).value, StreakAt(before, order[n].provider, clock.at(t))))
      && forall id :: id != order[n].provider ==>
           (id in after <==> id in before) && (id in after ==> after[id] == before[id])
  {
    hide RestDuration, StreakAt;
    forall base: nat, k: nat | base > 0 ensures RestDuration(base, k) > 0 { RestIsPositive(base, k); }
  }

  lemma RestIsPositive(base: nat, k: nat)
    requires base > 0
    ensures RestDuration(base, k) > 0
  {
    var n := Min(if k == 0 then 0 else k - 1, 10);
    PowersGrow(0, n);
    assert base * Pow2(n) >= base;
  }
}
