/** What a run has done so far: who wrote each mapping row, since when, and when each index was last finished. */
module BuildLogs {
  import opened IndexStores
  import opened IndexProtocol

  /** The world after the first `n` events. */
  function At(es: seq<Event>, n: nat): World
    requires n <= |es|
  {
    Run(Fresh(), es[..n])
  }

  lemma AtNext(es: seq<Event>, n: nat)
    requires n < |es|
    ensures At(es, n + 1) == Step(At(es, n), es[n])
  {
    assert es[..n + 1][..n] == es[..n];
  }

  /** The build that wrote a row last, and the step that opened the pair and resolved its inputs. */
  datatype Origin = Origin(builder: nat, since: nat)

  /** `since` is the step that opened the pair being written; `finished` the step that last finished each index. */
  datatype Log = Log(since: nat, origins: map<MapKey, Origin>, finished: map<nat, nat>)

  predicate Opens(w: World, e: Event) {
    w.worker.Pairing? && e.StartPair? && Step(w, e).worker.Writing?
  }

  predicate Writes(w: World, e: Event) {
    && w.worker.Writing? && e.Write? && e.page <= w.worker.refs && e.left <= w.worker.refs
    && w.worker.others != [] && Runs(w.store, w.worker.id)
  }

  predicate Finishes(w: World, e: Event) {
    w.worker.Pairing? && e.StartPair? && Runs(w.store, w.worker.id) && w.worker.others == []
  }

  function PageKeys(w: World, page: set<string>): set<MapKey>
    requires w.worker.Writing? && w.worker.others != []
  {
    var source := if w.worker.inbound then w.worker.others[0] else w.worker.id;
    var target := if w.worker.inbound then w.worker.id else w.worker.others[0];
    set r | r in page :: MapKey(source, target, r)
  }

  function NextLog(l: Log, w: World, e: Event, n: nat): Log {
    if Opens(w, e) then l.(since := n)
    else if Writes(w, e) then
      var keys := PageKeys(w, e.page);
      l.(origins := map k | k in l.origins.Keys + keys :: if k in keys then Origin(w.worker.id, l.since) else l.origins[k])
    else if Finishes(w, e) then l.(finished := l.finished[w.worker.id := n])
    else l
  }

  function LogAt(es: seq<Event>, n: nat): Log
    requires n <= |es|
  {
    if n == 0 then Log(0, map[], map[]) else NextLog(LogAt(es, n - 1), At(es, n - 1), es[n - 1], n - 1)
  }

  // ----- changes that no hook caught -----

  predicate Moves(w: World, e: Event, pair: Pair) {
    VersionOf(Step(w, e), pair) != VersionOf(w, pair)
  }

  /** Step `q` changes the inputs of index `b` without putting it back in the queue. */
  predicate Unseen(es: seq<Event>, q: nat, b: nat) {
    && q < |es| && b in At(es, q).store.rows
    && Moves(At(es, q), es[q], At(es, q).store.rows[b].pair)
    && b !in Caught(At(es, q), es[q])
  }

  predicate UnseenBetween(es: seq<Event>, b: nat, from: nat, to: nat) {
    exists q :: from < q < to && Unseen(es, q, b)
  }

  predicate IsChange(e: Event) {
    e.TranslationUpdated? || e.SchemeUpdated? || e.PreferredMoved? || e.ChainChanged?
  }

  /** Versions only grow, and only for the inputs a change names. */
  lemma VersionsGrow(w: World, e: Event, pair: Pair)
    ensures VersionOf(Step(w, e), pair) >= VersionOf(w, pair)
    ensures Moves(w, e, pair) ==> IsChange(e) && pair in Affected(e)
  {
    if IsChange(e) {
      assert StepChange(w, e).versions == w.versions || StepChange(w, e).versions == Bump(w, Affected(e)).versions;
    } else if e.Fail? || e.Abandon? {
    } else if e.Begin? || e.Clear? || e.StartPair? || e.Write? {
      BuildKeepsVersions(w, e);
    } else if e.Drain? || e.Sweep? || e.Claim? {
    } else {
    }
  }

  lemma BuildKeepsVersions(w: World, e: Event)
    ensures StepBuild(w, e).versions == w.versions
  {
  }

  /** An index that a change catches leaves the built state. */
  lemma CaughtIsQueued(w: World, e: Event, i: nat)
    requires i in Caught(w, e) && Moves(w, e, w.store.rows[i].pair)
    requires i in w.store.rows
    ensures i in Step(w, e).store.rows && Step(w, e).store.rows[i].status == Pending
  {
    VersionsGrow(w, e, w.store.rows[i].pair);
    assert Step(w, e) == StepChange(w, e) && StepChange(w, e) != w;
  }

  // ----- staying built -----

  /** Ready, or being written after its old rows are gone. */
  predicate Built(w: World, i: nat) {
    i in w.store.rows
    && (w.store.rows[i].status == Ready || (w.store.rows[i].status == Building && PastClear(w.worker, i)))
  }

  predicate BuiltAs(w: World, i: nat, pair: Pair) {
    Built(w, i) && w.store.rows[i].pair == pair
  }

  /** Built for one pair in every world after `from` up to `to`. */
  ghost predicate Steady(es: seq<Event>, i: nat, pair: Pair, from: nat, to: nat)
    requires to <= |es|
  {
    forall q :: from < q <= to ==> BuiltAs(At(es, q), i, pair)
  }

  /** The worker writes rows of this index. */
  predicate UnderWay(w: World, i: nat) {
    i in w.store.rows && w.store.rows[i].status == Building && PastClear(w.worker, i)
  }

  /** One build: the worker writes rows of this index in every world after `from` up to `to`. */
  ghost predicate OneBuild(es: seq<Event>, i: nat, from: nat, to: nat)
    requires to <= |es|
  {
    forall q :: from < q <= to ==> UnderWay(At(es, q), i)
  }

  /** While an index stays built, its inputs have moved exactly when a change went unseen. */
  lemma {:induction false} MovedIffUnseen(es: seq<Event>, i: nat, pair: Pair, from: nat, to: nat)
    requires from < to <= |es| && Steady(es, i, pair, from, to)
    ensures VersionOf(At(es, from + 1), pair) <= VersionOf(At(es, to), pair)
    ensures VersionOf(At(es, from + 1), pair) != VersionOf(At(es, to), pair) <==> UnseenBetween(es, i, from, to)
  {
    if from + 1 < to {
      var q := to - 1;
      MovedIffUnseen(es, i, pair, from, q);
      AtNext(es, q);
      VersionsGrow(At(es, q), es[q], pair);
      assert BuiltAs(At(es, q), i, pair) && BuiltAs(At(es, to), i, pair);
      if Moves(At(es, q), es[q], pair) {
        if i in Caught(At(es, q), es[q]) {
          CaughtIsQueued(At(es, q), es[q], i);
        }
        assert Unseen(es, q, i);
      }
      if p :| from < p < to && Unseen(es, p, i) {
        assert p == q || UnseenBetween(es, i, from, q);
      }
    }
  }

  /** The step that opens a pair moves no inputs. */
  lemma OpeningMovesNothing(es: seq<Event>, n: nat, pair: Pair)
    requires n < |es| && es[n].StartPair?
    ensures VersionOf(At(es, n + 1), pair) == VersionOf(At(es, n), pair)
  {
    AtNext(es, n);
    VersionsGrow(At(es, n), es[n], pair);
  }
}
