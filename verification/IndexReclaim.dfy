/** No mapping row leaks, reclaim spares live indexes, and one pair never has two indexes. */
module IndexReclaims {
  import opened IndexStores
  import opened IndexProtocol
  import opened BuildLogs

  /** A live index, or one whose rows are queued for reclaim. */
  predicate Kept(st: Store, i: nat) {
    i in st.rows || i in st.reclaim
  }

  ghost predicate Tended(st: Store) {
    forall k :: k in st.mappings ==> Kept(st, k.source) && Kept(st, k.target)
  }

  /** The counterpart the worker may still write for. */
  predicate WorkerTended(w: World) {
    match w.worker
    case Pairing(id, own, others, known) => known.Some? && others != [] ==> Kept(w.store, others[0])
    case Writing(id, own, others, theirs, inbound, stamp, refs) => others != [] ==> Kept(w.store, others[0])
    case _ => true
  }

  ghost predicate NoLeak(w: World) {
    Tended(w.store) && WorkerTended(w)
  }

  /** Nothing new is stored and nobody loses both its row and its queue entry. */
  ghost predicate Tends(st: Store, st': Store) {
    && (forall k :: k in st'.mappings ==> k in st.mappings)
    && (forall i :: Kept(st, i) ==> Kept(st', i))
  }

  lemma TendsKeeps(w: World, w': World)
    requires NoLeak(w) && Tends(w.store, w'.store) && (w'.worker == w.worker || !(w'.worker.Pairing? || w'.worker.Writing?))
    ensures NoLeak(w')
  {
    forall k | k in w'.store.mappings ensures Kept(w'.store, k.source) && Kept(w'.store, k.target) {
      assert Kept(w.store, k.source) && Kept(w.store, k.target);
    }
  }

  lemma DropTends(st: Store, ids: set<nat>)
    ensures Tends(st, Drop(st, ids))
  {
  }

  lemma RequestsTend(w: World, e: Event)
    ensures Tends(w.store, StepRequest(w, e).store)
  {
    match e
    case DeleteIndex(id) => DropTends(w.store, {id});
    case TranslationDeleted(translation) => DropTends(w.store, OfTranslation(w.store, translation));
    case SchemeDeleted(scheme) => DropTends(w.store, OfScheme(w.store, scheme));
    case _ =>
  }

  lemma ChangesTend(w: World, e: Event)
    ensures Tends(w.store, StepChange(w, e).store)
  {
  }

  lemma EndTends(w: World, e: Event)
    ensures Tends(w.store, StepEnd(w, e).store)
  {
  }

  /** Draining drops a queue entry only for a live index or once its last mapping row is gone. */
  lemma DrainKeeps(w: World, item: nat, gone: set<MapKey>)
    requires NoLeak(w) && w.worker.Idle?
    ensures NoLeak(StepIdle(w, Drain(item, gone)))
  {
    var w' := StepIdle(w, Drain(item, gone));
    forall k | k in w'.store.mappings ensures Kept(w'.store, k.source) && Kept(w'.store, k.target) {
      assert Kept(w.store, k.source) && Kept(w.store, k.target);
      if item !in w.store.rows && item !in w'.store.reclaim && item in w.store.reclaim {
        assert k !in Touching(w.store, item);
      }
    }
  }

  lemma BuildKeeps(w: World, e: Event)
    requires NoLeak(w)
    ensures NoLeak(StepBuild(w, e))
  {
    var w' := StepBuild(w, e);
    if w.worker.Writing? && w' != w && Runs(w.store, w.worker.id) {
      forall k | k in w'.store.mappings ensures Kept(w'.store, k.source) && Kept(w'.store, k.target) {
        assert k in w.store.mappings || {k.source, k.target} == {w.worker.id, w.worker.others[0]};
      }
    } else {
      assert Tends(w.store, w'.store);
      forall k | k in w'.store.mappings ensures Kept(w'.store, k.source) && Kept(w'.store, k.target) {
        assert Kept(w.store, k.source) && Kept(w.store, k.target);
      }
    }
  }

  lemma StepKeeps(w: World, e: Event)
    requires NoLeak(w)
    ensures NoLeak(Step(w, e))
  {
    if e.Fail? || e.Abandon? {
      EndTends(w, e);
      TendsKeeps(w, Step(w, e));
    } else if e.Begin? || e.Clear? || e.StartPair? || e.Write? {
      BuildKeeps(w, e);
    } else if e.Drain? {
      if w.worker.Idle? {
        DrainKeeps(w, e.item, e.gone);
      }
    } else if e.Sweep? || e.Claim? {
      TendsKeeps(w, Step(w, e));
    } else if e.TranslationUpdated? || e.SchemeUpdated? || e.PreferredMoved? || e.ChainChanged? {
      ChangesTend(w, e);
      TendsKeeps(w, Step(w, e));
    } else {
      RequestsTend(w, e);
      TendsKeeps(w, Step(w, e));
    }
  }

  /** In every reachable state each side of every stored row is a live index or queued for reclaim. */
  lemma {:induction false} NoRowLeaks(es: seq<Event>)
    ensures NoLeak(Run(Fresh(), es))
  {
    if es != [] {
      NoRowLeaks(es[..|es| - 1]);
      StepKeeps(Run(Fresh(), es[..|es| - 1]), es[|es| - 1]);
    }
  }

  // ----- rows between live indexes -----

  predicate BothLive(st: Store, k: MapKey) {
    k.source in st.rows && k.target in st.rows
  }

  /** A build of one of the row's indexes clears its old rows. */
  predicate Rebuilds(w: World, e: Event, k: MapKey) {
    e.Clear? && w.worker.Clearing? && Touches(k, w.worker.id)
  }

  lemma StepSpares(w: World, e: Event, k: MapKey)
    requires k in w.store.mappings && BothLive(w.store, k) && !Rebuilds(w, e, k)
    ensures k in Step(w, e).store.mappings
  {
    if e.Drain? && w.worker.Idle? {
      assert k in Touching(w.store, e.item) ==> e.item in w.store.rows;
    } else if e.Clear? && w.worker.Clearing? {
      assert k !in Touching(w.store, w.worker.id);
    }
  }

  /**
   * In every run a stored row whose two indexes stay live is lost only to a rebuild of one of them:
   * neither reclaim nor any request takes it.
   */
  lemma {:induction false} LiveRowsStay(es: seq<Event>, from: nat, to: nat, k: MapKey)
    requires from <= to <= |es| && k in At(es, from).store.mappings
    requires forall q :: from <= q < to ==> BothLive(At(es, q).store, k) && !Rebuilds(At(es, q), es[q], k)
    ensures k in At(es, to).store.mappings
  {
    if from < to {
      var q := to - 1;
      LiveRowsStay(es, from, q, k);
      StepSpares(At(es, q), es[q], k);
      AtNext(es, q);
    }
  }

  // ----- one index per pair -----

  lemma StepUnique(w: World, e: Event)
    requires Unique(w.store)
    ensures Unique(Step(w, e).store)
  {
    var st, st' := w.store, Step(w, e).store;
    if e.CreateIndex? || e.SetVersification? || e.PreferredMoved? {
      RepointUnique(w, e);
    } else {
      forall i | i in st'.rows ensures i in st.rows && st'.rows[i].pair == st.rows[i].pair {
        KeepsPairs(w, e, i);
      }
    }
  }

  lemma KeepsPairs(w: World, e: Event, i: nat)
    requires !e.CreateIndex? && !e.SetVersification? && !e.PreferredMoved? && i in Step(w, e).store.rows
    ensures i in w.store.rows && Step(w, e).store.rows[i].pair == w.store.rows[i].pair
  {
    if e.Begin? || e.Clear? || e.StartPair? || e.Write? {
      BuildKeepsPairs(w, e, i);
    } else if e.TranslationUpdated? || e.SchemeUpdated? || e.ChainChanged? {
      assert Step(w, e) == StepChange(w, e);
    } else if e.Drain? || e.Sweep? || e.Claim? {
      assert Step(w, e) == w || Step(w, e) == StepIdle(w, e);
    } else if !e.Fail? && !e.Abandon? {
      RequestKeepsPairs(w, e, i);
    }
  }

  lemma BuildKeepsPairs(w: World, e: Event, i: nat)
    requires i in StepBuild(w, e).store.rows
    ensures i in w.store.rows && StepBuild(w, e).store.rows[i].pair == w.store.rows[i].pair
  {
  }

  lemma RequestKeepsPairs(w: World, e: Event, i: nat)
    requires !e.CreateIndex? && !e.SetVersification? && i in StepRequest(w, e).store.rows
    ensures i in w.store.rows && StepRequest(w, e).store.rows[i].pair == w.store.rows[i].pair
  {
  }

  lemma RepointUnique(w: World, e: Event)
    requires Unique(w.store) && (e.CreateIndex? || e.SetVersification? || e.PreferredMoved?)
    ensures Unique(Step(w, e).store)
  {
  }

  /** A translation and versification never have two indexes, so a reader's pair is unambiguous. */
  lemma {:induction false} OneIndexPerPair(es: seq<Event>)
    ensures Unique(Run(Fresh(), es).store)
  {
    if es != [] {
      OneIndexPerPair(es[..|es| - 1]);
      StepUnique(Run(Fresh(), es[..|es| - 1]), es[|es| - 1]);
    }
  }
}
