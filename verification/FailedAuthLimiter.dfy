/** The failed-login limiter: a bounded per-client store that stands for the full failure history. */
module FailedAuth {
  import opened Options

  datatype Attempt = Attempt(client: string, time: real)

  /** Timestamps of one client, oldest first. */
  function History(log: seq<Attempt>, client: string): seq<real> {
    if log == [] then []
    else
      var last := log[|log| - 1];
      History(log[..|log| - 1], client) + (if last.client == client then [last.time] else [])
  }

  function Last(stamps: seq<real>): real {
    if stamps == [] then 0.0 else stamps[|stamps| - 1]
  }

  predicate Inside(stamp: real, now: real, window: int) {
    now - stamp < window as real
  }

  /** The timestamps still inside the sliding window. */
  function InWindow(stamps: seq<real>, now: real, window: int): seq<real> {
    if stamps == [] then []
    else
      InWindow(stamps[..|stamps| - 1], now, window)
      + (if Inside(stamps[|stamps| - 1], now, window) then [stamps[|stamps| - 1]] else [])
  }

  ghost predicate Ascending(stamps: seq<real>) {
    forall i, j :: 0 <= i < j < |stamps| ==> stamps[i] <= stamps[j]
  }

  lemma {:induction false} InWindowConcat(xs: seq<real>, ys: seq<real>, now: real, window: int)
    ensures InWindow(xs + ys, now, window) == InWindow(xs, now, window) + InWindow(ys, now, window)
  {
    if ys == [] {
      assert xs + ys == xs;
    } else {
      InWindowConcat(xs, ys[..|ys| - 1], now, window);
      assert (xs + ys)[..|xs + ys| - 1] == xs + ys[..|ys| - 1];
    }
  }

  lemma {:induction false} AllExpired(xs: seq<real>, now: real, window: int)
    requires forall x :: x in xs ==> !Inside(x, now, window)
    ensures InWindow(xs, now, window) == []
  {
    if xs != [] {
      AllExpired(xs[..|xs| - 1], now, window);
    }
  }

  lemma {:induction false} AllInside(xs: seq<real>, now: real, window: int)
    requires forall x :: x in xs ==> Inside(x, now, window)
    ensures InWindow(xs, now, window) == xs
  {
    if xs != [] {
      AllInside(xs[..|xs| - 1], now, window);
    }
  }

  lemma WindowSnoc(xs: seq<real>, x: real, now: real, window: int)
    ensures InWindow(xs + [x], now, window) == InWindow(xs, now, window) + (if Inside(x, now, window) then [x] else [])
  {
    assert (xs + [x])[..|xs|] == xs;
  }

  /** What the window keeps is a tail of the list, and what it drops has expired. */
  ghost predicate KeepsTail(xs: seq<real>, kept: seq<real>, now: real, window: int) {
    && |kept| <= |xs| && xs[|xs| - |kept|..] == kept
    && forall k :: 0 <= k < |xs| - |kept| ==> !Inside(xs[k], now, window)
  }

  lemma TailSnoc(xs: seq<real>, kept: seq<real>, x: real, now: real, window: int)
    requires KeepsTail(xs, kept, now, window)
    ensures KeepsTail(xs + [x], kept + [x], now, window)
  {
    assert (xs + [x])[|xs| - |kept|..] == xs[|xs| - |kept|..] + [x];
  }

  /** In an ascending list everything before an expired timestamp has expired. */
  lemma {:induction false} WindowIsTail(xs: seq<real>, now: real, window: int)
    requires Ascending(xs)
    ensures KeepsTail(xs, InWindow(xs, now, window), now, window)
  {
    if xs != [] {
      var init, last := xs[..|xs| - 1], xs[|xs| - 1];
      assert xs == init + [last];
      WindowIsTail(init, now, window);
      WindowSnoc(init, last, now, window);
      if Inside(last, now, window) {
        TailSnoc(init, InWindow(init, now, window), last, now, window);
      } else {
        AllExpired(init, now, window);
      }
    }
  }

  // ----- what the store stands for -----

  /** Every failure ever, the newest live failure ever lost per client, and the last clock reading. */
  datatype Trace = Trace(log: seq<Attempt>, lost: map<string, real>, clock: real)

  /** Dropping this timestamp cannot be noticed: it has expired, or it is covered by a recorded loss. */
  predicate Forgotten(stamp: real, trace: Trace, client: string, window: int) {
    !Inside(stamp, trace.clock, window) || (client in trace.lost && stamp <= trace.lost[client])
  }

  /** What is stored is the tail of the history, and everything before it may be forgotten. */
  ghost predicate TailOf(stored: seq<real>, trace: Trace, client: string, window: int) {
    var h := History(trace.log, client);
    && |stored| <= |h| && h[|h| - |stored|..] == stored
    && forall k :: 0 <= k < |h| - |stored| ==> Forgotten(h[k], trace, client, window)
  }

  function StoredFor(failures: map<string, seq<real>>, client: string): seq<real> {
    if client in failures then failures[client] else []
  }

  ghost predicate Stands(failures: map<string, seq<real>>, trace: Trace, window: int) {
    && (forall client :: client in failures ==> failures[client] != [])
    && (forall client :: TailOf(StoredFor(failures, client), trace, client, window))
    && (forall client :: Ascending(History(trace.log, client)))
    && (forall i :: 0 <= i < |trace.log| ==> trace.log[i].time <= trace.clock)
  }

  /** No live failure of this client was lost within the last window. */
  predicate Exact(trace: Trace, client: string, now: real, window: int) {
    client !in trace.lost || !Inside(trace.lost[client], now, window)
  }

  function LiveFailures(trace: Trace, client: string, now: real, window: int): seq<real> {
    InWindow(History(trace.log, client), now, window)
  }

  /** The store never counts more than the history holds, and counts it exactly for a client that lost nothing recent. */
  lemma StoredCounts(stored: seq<real>, trace: Trace, client: string, now: real, window: int)
    requires TailOf(stored, trace, client, window) && now >= trace.clock
    ensures |InWindow(stored, now, window)| <= |LiveFailures(trace, client, now, window)|
    ensures Exact(trace, client, now, window) ==> InWindow(stored, now, window) == LiveFailures(trace, client, now, window)
  {
    var h := History(trace.log, client);
    var dropped := h[..|h| - |stored|];
    assert h == dropped + stored;
    InWindowConcat(dropped, stored, now, window);
    if Exact(trace, client, now, window) {
      forall x | x in dropped ensures !Inside(x, now, window) {
        var k :| 0 <= k < |dropped| && dropped[k] == x;
        assert Forgotten(h[k], trace, client, window);
      }
      AllExpired(dropped, now, window);
    }
  }

  // ----- one failure -----

  function Record(trace: Trace, client: string, now: real): Trace {
    Trace(trace.log + [Attempt(client, now)], trace.lost, now)
  }

  lemma {:induction false} HistoryBounded(log: seq<Attempt>, client: string, bound: real)
    requires forall i :: 0 <= i < |log| ==> log[i].time <= bound
    ensures forall x :: x in History(log, client) ==> x <= bound
  {
    if log != [] {
      HistoryBounded(log[..|log| - 1], client, bound);
    }
  }

  lemma RecordedHistory(trace: Trace, client: string, other: string, now: real)
    ensures History(Record(trace, client, now).log, other)
            == History(trace.log, other) + (if other == client then [now] else [])
  {
    assert (trace.log + [Attempt(client, now)])[..|trace.log|] == trace.log;
  }

  /** Time passing keeps what was forgotten forgotten. */
  lemma TailLater(stored: seq<real>, trace: Trace, client: string, other: string, now: real, window: int)
    requires TailOf(stored, trace, other, window) && now >= trace.clock && other != client
    ensures TailOf(stored, Record(trace, client, now), other, window)
  {
    RecordedHistory(trace, client, other, now);
    var h := History(trace.log, other);
    assert h + [] == h;
    forall k | 0 <= k < |h| - |stored| ensures Forgotten(h[k], Record(trace, client, now), other, window) {
      assert Forgotten(h[k], trace, other, window);
    }
  }

  /** Pruning the client's list and appending the new failure keeps it a tail of the history. */
  lemma TailAppended(stored: seq<real>, trace: Trace, client: string, now: real, window: int)
    requires TailOf(stored, trace, client, window) && now >= trace.clock
    requires Ascending(History(trace.log, client))
    ensures TailOf(InWindow(stored, now, window) + [now], Record(trace, client, now), client, window)
  {
    RecordedHistory(trace, client, client, now);
    var h, kept := History(trace.log, client), InWindow(stored, now, window);
    WindowIsTail(stored, now, window);
    var stays := kept + [now];
    var h' := h + [now];
    var later := Record(trace, client, now);
    assert h'[|h'| - |stays|..] == stays;
    forall k | 0 <= k < |h'| - |stays| ensures Forgotten(h'[k], later, client, window) {
      if k < |h| - |stored| {
        assert Forgotten(h[k], trace, client, window);
      } else {
        assert h[k] == stored[k - (|h| - |stored|)];
      }
    }
  }

  lemma AscendingSnoc(xs: seq<real>, x: real)
    requires Ascending(xs) && forall y :: y in xs ==> y <= x
    ensures Ascending(xs + [x])
  {
    forall i, j | 0 <= i < j < |xs| + 1 ensures (xs + [x])[i] <= (xs + [x])[j] {
      assert xs[i] in xs;
    }
  }

  lemma RecordStands(failures: map<string, seq<real>>, trace: Trace, client: string, now: real, window: int)
    requires Stands(failures, trace, window) && now >= trace.clock
    ensures Stands(failures[client := InWindow(StoredFor(failures, client), now, window) + [now]], Record(trace, client, now), window)
  {
    var failures' := failures[client := InWindow(StoredFor(failures, client), now, window) + [now]];
    var later := Record(trace, client, now);
    forall other
      ensures TailOf(StoredFor(failures', other), later, other, window) && Ascending(History(later.log, other))
    {
      RecordedHistory(trace, client, other, now);
      if other == client {
        TailAppended(StoredFor(failures, client), trace, client, now, window);
        HistoryBounded(trace.log, client, trace.clock);
        AscendingSnoc(History(trace.log, client), now);
      } else {
        TailLater(StoredFor(failures, other), trace, client, other, now, window);
        assert History(trace.log, other) + [] == History(trace.log, other);
      }
    }
  }

  // ----- dropping a client -----

  /** A client is dropped; its newest failure is recorded as lost. */
  function Lose(trace: Trace, client: string, stamp: real): Trace {
    trace.(lost := trace.lost[client := stamp])
  }

  /** When nothing stored is live, the whole history may be forgotten. */
  lemma ExpiredTail(stored: seq<real>, trace: Trace, client: string, window: int)
    requires TailOf(stored, trace, client, window) && Ascending(History(trace.log, client))
    requires InWindow(stored, trace.clock, window) == []
    ensures TailOf([], trace, client, window)
  {
    var h := History(trace.log, client);
    TailAscending(h, stored);
    WindowIsTail(stored, trace.clock, window);
    forall k | 0 <= k < |h| ensures Forgotten(h[k], trace, client, window) {
      if k >= |h| - |stored| {
        assert h[k] == stored[k - (|h| - |stored|)];
      }
    }
  }

  lemma ExpiredDropStands(failures: map<string, seq<real>>, trace: Trace, client: string, window: int)
    requires Stands(failures, trace, window) && InWindow(StoredFor(failures, client), trace.clock, window) == []
    ensures Stands(failures - {client}, trace, window)
  {
    ExpiredTail(StoredFor(failures, client), trace, client, window);
    forall other ensures TailOf(StoredFor(failures - {client}, other), trace, other, window) {
      assert TailOf(StoredFor(failures, other), trace, other, window);
    }
  }

  lemma TailAscending(h: seq<real>, stored: seq<real>)
    requires Ascending(h) && |stored| <= |h| && h[|h| - |stored|..] == stored
    ensures Ascending(stored)
  {
    forall i, j | 0 <= i < j < |stored| ensures stored[i] <= stored[j] {
      assert stored[i] == h[|h| - |stored| + i] && stored[j] == h[|h| - |stored| + j];
    }
  }

  /** Once the newest failure counts as lost, the whole history of the client may be forgotten. */
  lemma AllLost(trace: Trace, client: string, window: int, stamp: real)
    requires Ascending(History(trace.log, client))
    requires History(trace.log, client) != [] ==> stamp == Last(History(trace.log, client))
    ensures TailOf([], Lose(trace, client, stamp), client, window)
  {
    var h := History(trace.log, client);
    forall k | 0 <= k < |h| ensures h[k] <= stamp {
      assert k < |h| - 1 ==> h[k] <= h[|h| - 1];
    }
  }

  lemma TailElsewhere(stored: seq<real>, trace: Trace, client: string, stamp: real, other: string, window: int)
    requires TailOf(stored, trace, other, window) && other != client
    ensures TailOf(stored, Lose(trace, client, stamp), other, window)
  {
    var h := History(trace.log, other);
    forall k | 0 <= k < |h| - |stored| ensures Forgotten(h[k], Lose(trace, client, stamp), other, window) {
      assert Forgotten(h[k], trace, other, window);
    }
  }

  lemma LoseStands(failures: map<string, seq<real>>, trace: Trace, client: string, window: int)
    requires Stands(failures, trace, window) && client in failures
    ensures Stands(failures - {client}, Lose(trace, client, Last(failures[client])), window)
  {
    var h, stored := History(trace.log, client), failures[client];
    var later := Lose(trace, client, Last(stored));
    assert StoredFor(failures, client) == stored && TailOf(stored, trace, client, window);
    assert Last(stored) == h[|h| - 1];
    AllLost(trace, client, window, Last(stored));
    forall other ensures TailOf(StoredFor(failures - {client}, other), later, other, window) {
      if other != client {
        TailElsewhere(StoredFor(failures, other), trace, client, Last(stored), other, window);
      }
    }
  }

  // ----- the limiter -----

  function Ceil(x: real): int {
    -((-x).Floor)
  }

  /** Seconds to wait, at least one. */
  function RetryAfter(oldest: real, now: real, window: int): int {
    var wait := Ceil(oldest + window as real - now);
    if wait > 1 then wait else 1
  }

  /** After this wait the failure has left the window, and one second less would not do when the wait exceeds one. */
  predicate TightWait(oldest: real, now: real, window: int, wait: int) {
    && wait >= 1 && !Inside(oldest, now + wait as real, window)
    && (wait > 1 ==> Inside(oldest, now + (wait - 1) as real, window))
  }

  lemma RetryIsTight(oldest: real, now: real, window: int)
    ensures TightWait(oldest, now, window, RetryAfter(oldest, now, window))
  {
  }

  /** The pruned list plus the new failure is what the history holds in the window, when nothing recent was lost. */
  lemma Counted(stored: seq<real>, trace: Trace, client: string, now: real, window: int)
    requires TailOf(stored, trace, client, window) && now >= trace.clock && window > 0
    ensures var kept, live := InWindow(stored, now, window) + [now], LiveFailures(Record(trace, client, now), client, now, window);
            && |kept| <= |live|
            && (Exact(trace, client, now, window) ==> kept == live)
  {
    StoredCounts(stored, trace, client, now, window);
    RecordedHistory(trace, client, client, now);
    InWindowConcat(History(trace.log, client), [now], now, window);
    AllInside([now], now, window);
  }

  /** The store right after recording, before anything is evicted. */
  function Recorded(failures: map<string, seq<real>>, client: string, now: real, window: int): map<string, seq<real>> {
    failures[client := InWindow(StoredFor(failures, client), now, window) + [now]]
  }

  /** Only clients go, the rest is as it was. */
  ghost predicate Shrunk(failures: map<string, seq<real>>, failures': map<string, seq<real>>) {
    failures'.Keys <= failures.Keys && forall k :: k in failures' ==> failures'[k] == failures[k]
  }

  /** The victims so far, each no later than anything still kept. */
  ghost predicate EvictedSoFar(before: map<string, seq<real>>, after: map<string, seq<real>>, was: Trace, now: Trace, victims: set<string>) {
    && Shrunk(before, after) && before.Keys == after.Keys + victims && after.Keys !! victims
    && (forall v :: v in victims ==> v in now.lost && now.lost[v] == Last(before[v]))
    && (forall v, k :: v in victims && k in after ==> Last(before[v]) <= Last(after[k]))
    && (forall c :: c !in victims ==> (c in now.lost <==> c in was.lost) && (c in now.lost ==> now.lost[c] == was.lost[c]))
  }

  predicate OldestIn(failures: map<string, seq<real>>, victim: string) {
    victim in failures && forall k :: k in failures ==> Last(failures[victim]) <= Last(failures[k])
  }

  lemma EvictStep(before: map<string, seq<real>>, after: map<string, seq<real>>, was: Trace, now: Trace, victims: set<string>, victim: string)
    requires EvictedSoFar(before, after, was, now, victims) && OldestIn(after, victim)
    ensures EvictedSoFar(before, after - {victim}, was, Lose(now, victim, Last(after[victim])), victims + {victim})
  {
  }

  ghost predicate InEviction(before: map<string, seq<real>>, after: map<string, seq<real>>, was: Trace, now: Trace,
                             victims: set<string>, window: int, maxKeys: nat) {
    && Stands(after, now, window) && EvictedSoFar(before, after, was, now, victims)
    && now.log == was.log && now.clock == was.clock
    && (victims != {} ==> |after| >= maxKeys)
  }

  lemma InEvictionStep(before: map<string, seq<real>>, after: map<string, seq<real>>, was: Trace, now: Trace,
                       victims: set<string>, window: int, maxKeys: nat, victim: string)
    requires InEviction(before, after, was, now, victims, window, maxKeys) && OldestIn(after, victim) && |after| > maxKeys
    ensures InEviction(before, after - {victim}, was, Lose(now, victim, Last(after[victim])), victims + {victim}, window, maxKeys)
    ensures |after - {victim}| < |after|
  {
    LoseStands(after, now, victim, window);
    EvictStep(before, after, was, now, victims, victim);
    assert (after - {victim}).Keys == after.Keys - {victim};
    assert |after.Keys - {victim}| == |after.Keys| - 1;
    assert |after - {victim}| == |(after - {victim}).Keys| && |after| == |after.Keys|;
  }

  /** A client with the oldest last failure. */
  method OldestLast(failures: map<string, seq<real>>) returns (victim: string)
    requires |failures| > 0
    ensures OldestIn(failures, victim)
  {
    var rest := failures.Keys;
    victim :| victim in rest;
    rest := rest - {victim};
    while rest != {}
      invariant rest <= failures.Keys && victim in failures
      invariant forall k :: k in failures && k !in rest ==> Last(failures[victim]) <= Last(failures[k])
      decreases rest
    {
      var k :| k in rest;
      rest := rest - {k};
      if Last(failures[k]) < Last(failures[victim]) {
        victim := k;
      }
    }
  }

  /** Drop the client with the oldest last failure until the store is at the cap. */
  method EvictOldest(failures: map<string, seq<real>>, maxKeys: nat, ghost was: Trace, ghost window: int)
    returns (kept: map<string, seq<real>>, ghost now: Trace, ghost victims: set<string>)
    requires Stands(failures, was, window)
    ensures InEviction(failures, kept, was, now, victims, window, maxKeys) && |kept| <= maxKeys
  {
    kept, now, victims := failures, was, {};
    while |kept| > maxKeys
      invariant InEviction(failures, kept, was, now, victims, window, maxKeys)
      decreases |kept|
    {
      var victim := OldestLast(kept);
      InEvictionStep(failures, kept, was, now, victims, window, maxKeys, victim);
      now := Lose(now, victim, Last(kept[victim]));
      kept := kept - {victim};
      victims := victims + {victim};
    }
  }

  class FailedAuthLimiter {
    const limit: int
    const window: int
    const maxKeys: nat
    var failures: map<string, seq<real>>
    ghost var trace: Trace

    ghost predicate Valid()
      reads this
    {
      Stands(failures, trace, window)
    }

    constructor (limit: int, window: int, maxKeys: nat)
      ensures Valid() && this.limit == limit && this.window == window && this.maxKeys == maxKeys
      ensures failures == map[] && trace == Trace([], map[], 0.0)
    {
      this.limit, this.window, this.maxKeys := limit, window, maxKeys;
      failures := map[];
      trace := Trace([], map[], 0.0);
    }

    predicate Enabled() {
      limit > 0 && window > 0
    }

    /**
     * Record one failure; the answer is the seconds to wait when the client is over the limit. It is the
     * answer the full history gives, unless live failures of the client were evicted within the last window,
     * and then it only ever counts too few. `victims` are the clients evicted for capacity.
     */
    method RegisterFailure(client: string, now: real) returns (retry: Option<int>, ghost victims: set<string>)
      requires Valid() && now >= trace.clock
      modifies this
      ensures Valid()
      ensures !Enabled() ==> retry == None && failures == old(failures) && trace == old(trace)
      ensures Enabled() ==> trace.log == old(trace.log) + [Attempt(client, now)] && trace.clock == now
      ensures Enabled() && Exact(old(trace), client, now, window) ==>
                retry == if |LiveFailures(trace, client, now, window)| <= limit then None
                         else Some(RetryAfter(LiveFailures(trace, client, now, window)[0], now, window))
      ensures retry.Some? ==>
                var counted := InWindow(StoredFor(old(failures), client), now, window) + [now];
                |counted| > limit && TightWait(counted[0], now, window, retry.value)
      ensures retry.Some? ==> |LiveFailures(trace, client, now, window)| > limit
      ensures Enabled() ==> |failures| <= maxKeys && Shrunk(Recorded(old(failures), client, now, window), failures)
      ensures Enabled() ==> Evicted(Recorded(old(failures), client, now, window), failures, old(trace), trace, victims)
    {
      victims := {};
      if !Enabled() {
        return None, victims;
      }
      var timestamps := InWindow(StoredFor(failures, client), now, window);
      Counted(StoredFor(failures, client), trace, client, now, window);
      RecordStands(failures, trace, client, now, window);
      timestamps := timestamps + [now];
      failures := failures[client := timestamps];
      trace := Record(trace, client, now);
      victims := EvictIfNeeded(now);
      if |timestamps| <= limit {
        return None, victims;
      }
      RetryIsTight(timestamps[0], now, window);
      retry := Some(RetryAfter(timestamps[0], now, window));
    }

    /**
     * What eviction takes: nothing below the cap; above it every expired client, and then clients whose last
     * failure is no later than that of any client kept, down to the cap.
     */
    ghost predicate Evicted(before: map<string, seq<real>>, after: map<string, seq<real>>, was: Trace, now: Trace, victims: set<string>) {
      && (|before| <= maxKeys ==> after == before)
      && (|before| > maxKeys ==> forall k :: k in after && k in before ==> InWindow(before[k], now.clock, window) != [])
      && (forall k :: k in before && k !in after ==> k in victims || InWindow(before[k], now.clock, window) == [])
      && (victims != {} ==> |after| == maxKeys)
      && (forall v :: v in victims ==> v in before && v !in after && v in now.lost && now.lost[v] == Last(before[v]))
      && (forall v, k :: v in victims && k in after ==> Last(before[v]) <= Last(after[k]))
      && (forall c :: c !in victims ==> (c in now.lost <==> c in was.lost) && (c in now.lost ==> now.lost[c] == was.lost[c]))
    }

    method EvictIfNeeded(now: real) returns (ghost victims: set<string>)
      requires Valid() && now == trace.clock
      modifies this
      ensures Valid() && |failures| <= maxKeys && Shrunk(old(failures), failures)
      ensures trace.log == old(trace.log) && trace.clock == now
      ensures Evicted(old(failures), failures, old(trace), trace, victims)
    {
      victims := {};
      if |failures| <= maxKeys {
        return;
      }
      DropExpired(now);
      failures, trace, victims := EvictOldest(failures, maxKeys, trace, window);
    }

    /** Drop the clients with no failure left in the window. */
    method DropExpired(now: real)
      requires Valid() && now == trace.clock
      modifies this`failures
      ensures Valid() && Shrunk(old(failures), failures)
      ensures forall k :: k in old(failures) ==> (k in failures <==> InWindow(old(failures)[k], now, window) != [])
    {
      var expired := set k | k in failures && InWindow(failures[k], now, window) == [];
      var rest := expired;
      while rest != {}
        invariant rest <= expired && Valid() && Shrunk(old(failures), failures)
        invariant forall k :: k in old(failures) ==> (k in failures <==> k !in expired || k in rest)
        decreases rest
      {
        var k :| k in rest;
        rest := rest - {k};
        ExpiredDropStands(failures, trace, k, window);
        failures := failures - {k};
      }
    }
  }
}
