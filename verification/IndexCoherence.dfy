/** Cache agreement: in every run, exactly which payloads that two ready indexes serve are stale, and why. */
module IndexCoherence {
  import opened Options
  import opened IndexStores
  import opened IndexProtocol
  import opened BuildLogs

  // ----- the invariant -----

  function OtherSide(k: MapKey, i: nat): nat {
    if k.source == i then k.target else k.source
  }

  /** The stamp of a row resolved from the inputs of both pairs as the worker found them at step `n`. */
  function StampAt(es: seq<Event>, n: nat, source: Pair, target: Pair): Stamp
    requires n <= |es|
  {
    Stamp(Current(At(es, n), source), Current(At(es, n), target))
  }

  /** The builder is still at it, or it finished in the same build and remembers the inputs of that moment. */
  ghost predicate BuilderFits(es: seq<Event>, n: nat, w: World, l: Log, i: nat, since: nat)
    requires n <= |es|
  {
    && i in w.store.rows
    && if w.store.rows[i].status == Ready then
         && i in l.finished && since < l.finished[i] < n && OneBuild(es, i, since, l.finished[i])
         && w.store.rows[i].fingerprint == Some(Current(At(es, l.finished[i]), w.store.rows[i].pair))
       else OneBuild(es, i, since, n)
  }

  /** The counterpart is ready, finished under inputs no newer than those at step `since`. */
  predicate OtherFits(es: seq<Event>, w: World, i: nat, since: nat)
    requires since <= |es|
  {
    && i in w.store.rows && w.store.rows[i].status == Ready
    && w.store.rows[i].fingerprint.Some? && w.store.rows[i].fingerprint.value.pair == w.store.rows[i].pair
    && w.store.rows[i].fingerprint.value.version <= VersionOf(At(es, since), w.store.rows[i].pair)
  }

  /** Step `since` opened a pair, and both indexes have been built ever after. */
  ghost predicate Since(es: seq<Event>, n: nat, w: World, i: nat, since: nat)
    requires n <= |es|
  {
    && since < n && es[since].StartPair?
    && i in w.store.rows && Steady(es, i, w.store.rows[i].pair, since, n)
  }

  ghost predicate RowTraced(es: seq<Event>, n: nat, w: World, l: Log, k: MapKey)
    requires n <= |es|
  {
    (k in w.store.mappings && Built(w, k.source) && Built(w, k.target)) ==>
      && k in l.origins && k.source != k.target
      && var o := l.origins[k];
      && (o.builder == k.source || o.builder == k.target)
      && Since(es, n, w, k.source, o.since) && Since(es, n, w, k.target, o.since)
      && w.store.mappings[k] == StampAt(es, o.since, w.store.rows[k.source].pair, w.store.rows[k.target].pair)
      && BuilderFits(es, n, w, l, o.builder, o.since) && OtherFits(es, w, OtherSide(k, o.builder), o.since)
  }

  /** The counterpart the worker is on, when it is still ready. */
  predicate FacesReady(w: World, other: nat) {
    other in w.store.rows && w.store.rows[other].status == Ready
  }

  ghost predicate WritingFits(es: seq<Event>, n: nat, w: World, l: Log)
    requires n <= |es| && w.worker.Writing?
  {
    var Writing(id, own, others, theirs, inbound, stamp, refs) := w.worker;
    Built(w, id) ==>
      && Since(es, n, w, id, l.since) && OneBuild(es, id, l.since, n)
      && (others != [] && FacesReady(w, others[0]) ==>
            && theirs == w.store.rows[others[0]].pair
            && Since(es, n, w, others[0], l.since) && OtherFits(es, w, others[0], l.since)
            && stamp == if inbound then StampAt(es, l.since, theirs, own) else StampAt(es, l.since, own, theirs))
  }

  /** The worker never faces its own index, which is not ready, and knows its pair and its counterpart's. */
  ghost predicate WorkerFits(w: World) {
    match w.worker
    case Idle => true
    case Claimed(id) => !FacesReady(w, id)
    case Clearing(id, others) => id !in others && !FacesReady(w, id)
    case Pairing(id, own, others, known) =>
      && id !in others && !FacesReady(w, id)
      && (Built(w, id) ==> own == w.store.rows[id].pair)
      && (Built(w, id) && known.Some? && others != [] && FacesReady(w, others[0]) ==> known.value == w.store.rows[others[0]].pair)
    case Writing(id, own, others, theirs, inbound, stamp, refs) =>
      && id !in others && !FacesReady(w, id)
      && (Built(w, id) ==> own == w.store.rows[id].pair)
      && (Built(w, id) && others != [] && FacesReady(w, others[0]) ==> theirs == w.store.rows[others[0]].pair)
  }

  /** A ready row remembers inputs it was finished under, which may be older than the present ones. */
  ghost predicate FingerprintsFit(w: World) {
    forall i :: i in w.store.rows && w.store.rows[i].status == Ready ==>
      && w.store.rows[i].fingerprint.Some?
      && w.store.rows[i].fingerprint.value.pair == w.store.rows[i].pair
      && w.store.rows[i].fingerprint.value.version <= VersionOf(w, w.store.rows[i].pair)
  }

  /** Everything about the worker and the fingerprints that needs no history. */
  ghost predicate Coherent(w: World) {
    WorkerFits(w) && FingerprintsFit(w)
  }

  ghost predicate RowsTraced(es: seq<Event>, n: nat, w: World, l: Log)
    requires n <= |es|
  {
    forall k :: k in w.store.mappings ==> RowTraced(es, n, w, l, k)
  }

  ghost predicate Traced(es: seq<Event>, n: nat)
    requires n <= |es|
  {
    var w, l := At(es, n), LogAt(es, n);
    Coherent(w) && RowsTraced(es, n, w, l) && (w.worker.Writing? ==> WritingFits(es, n, w, l))
  }

  // ----- steps that only take away -----

  predicate SameInputs(row: IndexRow, row': IndexRow) {
    row.pair == row'.pair && row.status == row'.status && row.fingerprint == row'.fingerprint
  }

  /** Mapping rows and built indexes that are left are as they were. */
  ghost predicate Passes(w: World, w': World) {
    && (forall k :: k in w'.store.mappings ==> k in w.store.mappings && w'.store.mappings[k] == w.store.mappings[k])
    && (forall i :: i in w'.store.rows && (w'.store.rows[i].status == Ready || Built(w', i)) ==>
          i in w.store.rows && SameInputs(w.store.rows[i], w'.store.rows[i]))
    && (forall i :: Built(w', i) ==> Built(w, i))
  }

  /** Nothing new, no version moves, and the worker stays or leaves. */
  ghost predicate Weaker(w: World, w': World) {
    w'.versions == w.versions && Passes(w, w') && (w'.worker == w.worker || w'.worker.Idle?)
  }

  lemma WeakerKeeps(w: World, w': World)
    requires Coherent(w) && Weaker(w, w')
    ensures Coherent(w')
  {
    assert forall i :: FacesReady(w', i) ==> FacesReady(w, i) && SameInputs(w.store.rows[i], w'.store.rows[i]);
  }

  lemma RowRequestsWeaken(w: World, e: Event)
    requires e.CreateIndex? || e.SetVersification? || e.RequestCancel?
    ensures Weaker(w, StepRequest(w, e))
  {
  }

  lemma DropWeakens(w: World, ids: set<nat>)
    ensures Weaker(w, w.(store := Drop(w.store, ids)))
  {
  }

  lemma SetRequestsWeaken(w: World, e: Event)
    requires !e.CreateIndex? && !e.SetVersification? && !e.RequestCancel?
    ensures Weaker(w, StepRequest(w, e))
  {
    match e
    case DeleteIndex(id) => DropWeakens(w, {id});
    case TranslationDeleted(translation) => DropWeakens(w, OfTranslation(w.store, translation));
    case SchemeDeleted(scheme) => DropWeakens(w, OfScheme(w.store, scheme));
    case _ =>
  }

  lemma RequestsWeaken(w: World, e: Event)
    ensures Weaker(w, StepRequest(w, e))
  {
    if e.CreateIndex? || e.SetVersification? || e.RequestCancel? {
      RowRequestsWeaken(w, e);
    } else {
      SetRequestsWeaken(w, e);
    }
  }

  lemma IdleWeakens(w: World, e: Event)
    requires w.worker.Idle? && !e.Claim?
    ensures Weaker(w, StepIdle(w, e))
  {
  }

  lemma EndWeakens(w: World, e: Event)
    ensures Weaker(w, StepEnd(w, e))
  {
  }

  lemma StopWeakens(w: World, id: nat)
    ensures Weaker(w, Stop(w, id))
  {
  }

  lemma ClaimKeeps(w: World, id: nat)
    requires Coherent(w) && w.worker.Idle?
    ensures Coherent(StepIdle(w, Claim(id))) && Passes(w, StepIdle(w, Claim(id)))
  {
    var w' := StepIdle(w, Claim(id));
    assert forall i :: Built(w', i) ==> Built(w, i) && w'.store.rows[i] == w.store.rows[i];
  }

  // ----- input changes -----

  lemma RequeuePasses(w: World, w': World, ids: set<nat>)
    requires w'.store == Requeue(w.store, ids) && w'.worker == w.worker
    ensures Passes(w, w')
  {
  }

  lemma RepointPasses(w: World, w': World, id: nat, scheme: nat)
    requires id in w.store.rows && w'.store == Repoint(w.store, id, scheme, false) && w'.worker == w.worker
    ensures Passes(w, w')
  {
  }

  /** What is still built after a change was not caught by it. */
  lemma ChangePasses(w: World, e: Event)
    ensures Passes(w, StepChange(w, e)) && StepChange(w, e).worker == w.worker
  {
    var w' := StepChange(w, e);
    match e
    case TranslationUpdated(translation, affected) =>
      if w' != w {
        RequeuePasses(w, w', OfTranslation(w.store, translation));
      }
    case SchemeUpdated(scheme, affected) => RequeuePasses(w, w', OfScheme(w.store, scheme));
    case PreferredMoved(translation, scheme, affected, moved) =>
      if moved.Some? && CanRetarget(w.store, moved.value, translation, scheme) {
        RepointPasses(w, w', moved.value, scheme);
      }
    case _ =>
  }

  lemma ChangeKeeps(w: World, e: Event)
    requires Coherent(w)
    ensures Coherent(StepChange(w, e))
  {
    var w' := StepChange(w, e);
    ChangePasses(w, e);
    assert forall i :: FacesReady(w', i) ==> FacesReady(w, i) && SameInputs(w.store.rows[i], w'.store.rows[i]);
    assert forall p :: VersionOf(w', p) >= VersionOf(w, p);
  }

  // ----- the build -----

  lemma BeginKeeps(w: World, e: Event)
    requires Coherent(w) && w.worker.Claimed?
    ensures Coherent(StepBuild(w, e)) && Passes(w, StepBuild(w, e))
  {
    var w' := StepBuild(w, e);
    assert forall i :: Built(w', i) <==> Built(w, i);
    if e.Begin? && w' != w {
      assert w.worker.id !in ReadyOthers(w.store, w.worker.id);
      assert forall i :: i in e.others ==> i in (set i | i in e.others);
    }
  }

  /** Once cleared, an index is touched by no row. */
  predicate Cleared(w: World, w': World) {
    w.worker.Clearing? && w'.worker.Pairing? && w'.worker.id == w.worker.id
    && w'.store == w.store && Touching(w.store, w.worker.id) == {}
  }

  lemma ClearKeeps(w: World, e: Event)
    requires Coherent(w) && w.worker.Clearing?
    ensures Coherent(StepBuild(w, e)) && (Cleared(w, StepBuild(w, e)) || Passes(w, StepBuild(w, e)))
  {
    var w' := StepBuild(w, e);
    if !w'.worker.Pairing? {
      if w'.worker.Idle? {
        StopWeakens(w, w.worker.id);
      }
      WeakerKeeps(w, w');
    }
  }

  lemma FinishKeeps(w: World)
    requires Coherent(w) && w.worker.Pairing? && Runs(w.store, w.worker.id)
    ensures Coherent(Finish(w))
  {
    assert Built(w, w.worker.id);
  }

  lemma OpenKeeps(w: World, start: PairStart)
    requires Coherent(w) && w.worker.Pairing? && Runs(w.store, w.worker.id) && w.worker.others != []
    requires w.worker.known.None? ==> w.worker.others[0] in w.store.rows
    ensures Coherent(OpenPair(w, start)) && Passes(w, OpenPair(w, start))
  {
    var w', id, others := OpenPair(w, start), w.worker.id, w.worker.others;
    assert others[0] in others && forall i :: i in others[1..] ==> i in others;
    assert Built(w, id) && Built(w', id);
  }

  lemma PairKeeps(w: World, e: Event)
    requires Coherent(w) && w.worker.Pairing?
    ensures Coherent(StepBuild(w, e)) && (Finishes(w, e) || Passes(w, StepBuild(w, e)))
  {
    var w', id := StepBuild(w, e), w.worker.id;
    if e.StartPair? {
      if !Runs(w.store, id) {
        StopWeakens(w, id);
        WeakerKeeps(w, w');
      } else if w.worker.others == [] {
        FinishKeeps(w);
      } else if w.worker.known.None? && w.worker.others[0] !in w.store.rows {
        WeakerKeeps(w, w');
      } else {
        OpenKeeps(w, e.start);
      }
    }
  }

  lemma WriteKeeps(w: World, e: Event)
    requires Coherent(w) && w.worker.Writing?
    ensures Coherent(StepBuild(w, e)) && (Writes(w, e) || Passes(w, StepBuild(w, e)))
  {
    var w', id := StepBuild(w, e), w.worker.id;
    if w' != w && !Runs(w.store, id) {
      StopWeakens(w, id);
      WeakerKeeps(w, w');
    } else if w' != w {
      assert w'.store.rows == w.store.rows && w'.versions == w.versions;
      assert Built(w, id);
      assert forall i :: i in w.worker.others[1..] ==> i in w.worker.others;
      assert forall i :: FacesReady(w', i) <==> FacesReady(w, i);
    }
  }

  /** Every step either passes on what it leaves, or clears, writes or finishes; no step breaks coherence. */
  lemma StepKeeps(w: World, e: Event)
    requires Coherent(w)
    ensures Coherent(Step(w, e))
    ensures Writes(w, e) || Finishes(w, e) || Cleared(w, Step(w, e)) || Passes(w, Step(w, e))
  {
    if e.Fail? || e.Abandon? {
      EndWeakens(w, e);
      WeakerKeeps(w, Step(w, e));
    } else if e.Begin? || e.Clear? || e.StartPair? || e.Write? {
      match w.worker
      case Idle =>
      case Claimed(_) => BeginKeeps(w, e);
      case Clearing(_, _) => ClearKeeps(w, e);
      case Pairing(_, _, _, _) => PairKeeps(w, e);
      case Writing(_, _, _, _, _, _, _) => WriteKeeps(w, e);
    } else if e.Claim? {
      if w.worker.Idle? {
        ClaimKeeps(w, e.id);
      }
    } else if e.Drain? || e.Sweep? {
      if w.worker.Idle? {
        IdleWeakens(w, e);
        WeakerKeeps(w, Step(w, e));
      }
    } else if IsChange(e) {
      ChangePasses(w, e);
      ChangeKeeps(w, e);
    } else {
      RequestsWeaken(w, e);
      WeakerKeeps(w, Step(w, e));
    }
  }

  // ----- following rows through a run -----

  /** An index that is still built goes on being built. */
  lemma SinceGoesOn(es: seq<Event>, n: nat, i: nat, since: nat)
    requires n < |es| && Since(es, n, At(es, n), i, since)
    requires Built(At(es, n + 1), i) && At(es, n + 1).store.rows[i].pair == At(es, n).store.rows[i].pair
    ensures Since(es, n + 1, At(es, n + 1), i, since)
  {
  }

  /** The row is left as it was, and so are its two indexes. */
  ghost predicate RowStays(w: World, w': World, k: MapKey) {
    (k in w'.store.mappings && Built(w', k.source) && Built(w', k.target)) ==>
      && k in w.store.mappings && w'.store.mappings[k] == w.store.mappings[k]
      && Built(w, k.source) && Built(w, k.target)
      && SameInputs(w.store.rows[k.source], w'.store.rows[k.source])
      && SameInputs(w.store.rows[k.target], w'.store.rows[k.target])
  }

  /** The log says the same about a row and its indexes. */
  predicate LogStays(l: Log, l': Log, k: MapKey) {
    && (k in l.origins ==> k in l'.origins && l'.origins[k] == l.origins[k])
    && (k.source in l.finished ==> k.source in l'.finished && l'.finished[k.source] == l.finished[k.source])
    && (k.target in l.finished ==> k.target in l'.finished && l'.finished[k.target] == l.finished[k.target])
  }

  lemma RowGoesOn(es: seq<Event>, n: nat, l: Log, l': Log, k: MapKey)
    requires n < |es| && RowTraced(es, n, At(es, n), l, k)
    requires RowStays(At(es, n), At(es, n + 1), k) && LogStays(l, l', k)
    ensures RowTraced(es, n + 1, At(es, n + 1), l', k)
  {
    var w, w' := At(es, n), At(es, n + 1);
    if k in w'.store.mappings && Built(w', k.source) && Built(w', k.target) {
      SinceGoesOn(es, n, k.source, l.origins[k].since);
      SinceGoesOn(es, n, k.target, l.origins[k].since);
    }
  }

  lemma PassingRows(es: seq<Event>, n: nat, l: Log, l': Log)
    requires n < |es| && l'.origins == l.origins && l'.finished == l.finished
    requires Passes(At(es, n), At(es, n + 1)) || Cleared(At(es, n), At(es, n + 1))
    requires RowsTraced(es, n, At(es, n), l)
    ensures RowsTraced(es, n + 1, At(es, n + 1), l')
  {
    var w, w' := At(es, n), At(es, n + 1);
    forall k | k in w'.store.mappings ensures RowTraced(es, n + 1, w', l', k) {
      if Cleared(w, w') {
        assert k !in Touching(w.store, w.worker.id);
        assert RowStays(w, w', k);
      }
      RowGoesOn(es, n, l, l', k);
    }
  }

  /** Finishing turns the rows of the build into rows of a ready index; the others are not touched. */
  lemma FinishedRows(es: seq<Event>, n: nat, l: Log, k: MapKey)
    requires n < |es| && Coherent(At(es, n)) && Finishes(At(es, n), es[n])
    requires At(es, n + 1) == Finish(At(es, n))
    requires k in At(es, n).store.mappings && RowTraced(es, n, At(es, n), l, k)
    ensures RowTraced(es, n + 1, At(es, n + 1), l.(finished := l.finished[At(es, n).worker.id := n]), k)
  {
    var w, w' := At(es, n), At(es, n + 1);
    var id, l' := w.worker.id, l.(finished := l.finished[w.worker.id := n]);
    assert Built(w, id);
    if k.source != id && k.target != id {
      RowGoesOn(es, n, l, l', k);
    } else if Built(w', k.source) && Built(w', k.target) {
      assert Built(w, k.source) && Built(w, k.target);
      var o := l.origins[k];
      assert o.builder == id;
      SinceGoesOn(es, n, k.source, o.since);
      SinceGoesOn(es, n, k.target, o.since);
    }
  }

  /** A written row carries the stamp of its pair, and its build goes on. */
  lemma WrittenRow(es: seq<Event>, n: nat, l: Log, k: MapKey)
    requires n < |es| && Coherent(At(es, n)) && Writes(At(es, n), es[n]) && WritingFits(es, n, At(es, n), l)
    requires At(es, n + 1) == StepBuild(At(es, n), es[n])
    requires k in PageKeys(At(es, n), es[n].page)
    ensures RowTraced(es, n + 1, At(es, n + 1), NextLog(l, At(es, n), es[n], n), k)
  {
    var w, w', l' := At(es, n), At(es, n + 1), NextLog(l, At(es, n), es[n], n);
    var id, other := w.worker.id, w.worker.others[0];
    assert other in w.worker.others && id != other;
    assert Built(w, id) && Built(w', id) && w'.store.rows == w.store.rows;
    assert k in l'.origins && l'.origins[k] == Origin(id, l.since);
    if Built(w', other) {
      assert FacesReady(w, other);
      SinceGoesOn(es, n, id, l.since);
      SinceGoesOn(es, n, other, l.since);
    }
  }

  lemma WrittenRows(es: seq<Event>, n: nat, l: Log)
    requires n < |es| && Coherent(At(es, n)) && Writes(At(es, n), es[n]) && WritingFits(es, n, At(es, n), l)
    requires At(es, n + 1) == StepBuild(At(es, n), es[n])
    requires RowsTraced(es, n, At(es, n), l)
    ensures RowsTraced(es, n + 1, At(es, n + 1), NextLog(l, At(es, n), es[n], n))
  {
    var w, w', l' := At(es, n), At(es, n + 1), NextLog(l, At(es, n), es[n], n);
    assert w'.store.rows == w.store.rows;
    forall k | k in w'.store.mappings ensures RowTraced(es, n + 1, w', l', k) {
      if k in PageKeys(w, es[n].page) {
        WrittenRow(es, n, l, k);
      } else {
        assert k in w.store.mappings && w'.store.mappings[k] == w.store.mappings[k];
        assert forall i :: Built(w', i) ==> Built(w, i);
        RowGoesOn(es, n, l, l', k);
      }
    }
  }

  // ----- following the worker -----

  /** Opening a pair resolves from the inputs as they are. */
  lemma OpenedFits(es: seq<Event>, n: nat, l: Log)
    requires n < |es| && Coherent(At(es, n)) && Opens(At(es, n), es[n])
    requires At(es, n + 1) == Step(At(es, n), es[n])
    ensures At(es, n + 1).worker.Writing? && WritingFits(es, n + 1, At(es, n + 1), l.(since := n))
  {
    var w, w' := At(es, n), At(es, n + 1);
    var id, others := w.worker.id, w.worker.others;
    var own, theirs := w'.worker.own, w'.worker.theirs;
    OpenedPair(w, es[n]);
    assert UnderWay(w', id) && w'.worker.id == id && w'.worker.others == others;
    StepKeeps(w, es[n]);
    assert Since(es, n + 1, w', id, n) && OneBuild(es, id, n, n + 1);
  }

  lemma OpenedPair(w: World, e: Event)
    requires Coherent(w) && Opens(w, e)
    ensures var w' := Step(w, e);
            && Built(w, w.worker.id) && w'.store == w.store && w'.versions == w.versions
            && w'.worker.id == w.worker.id && w'.worker.own == w.worker.own && w'.worker.others == w.worker.others
            && w'.worker.stamp == if w'.worker.inbound then Stamp(Current(w, w'.worker.theirs), Current(w, w'.worker.own))
                                  else Stamp(Current(w, w'.worker.own), Current(w, w'.worker.theirs))
  {
    assert Step(w, e) == OpenPair(w, e.start);
  }

  /** Between pages the pair being written keeps its stamp. */
  lemma WritingGoesOn(es: seq<Event>, n: nat, l: Log)
    requires n < |es| && At(es, n).worker.Writing? && WritingFits(es, n, At(es, n), l)
    requires var w, w' := At(es, n), At(es, n + 1);
             && w'.worker.Writing? && w'.worker == w.worker.(refs := w'.worker.refs)
             && forall i :: (i in w'.store.rows && (w'.store.rows[i].status == Ready || Built(w', i))) ==>
                  i in w.store.rows && SameInputs(w.store.rows[i], w'.store.rows[i]) && Built(w, i)
    ensures WritingFits(es, n + 1, At(es, n + 1), l)
  {
    var w, w' := At(es, n), At(es, n + 1);
    var id, others := w.worker.id, w.worker.others;
    if Built(w', id) {
      assert Built(w, id) && UnderWay(w', id);
      SinceGoesOn(es, n, id, l.since);
      if others != [] && FacesReady(w', others[0]) {
        SinceGoesOn(es, n, others[0], l.since);
      }
    }
  }

  /** Where a writing worker comes from: it just opened a pair, or it was writing that pair before. */
  lemma WritingFrom(w: World, e: Event)
    requires Step(w, e).worker.Writing?
    ensures Opens(w, e) || (w.worker.Writing? && Step(w, e).worker == w.worker.(refs := Step(w, e).worker.refs))
  {
    if IsChange(e) {
      ChangePasses(w, e);
    }
  }

  /** What is built after a step on a writing worker was built before, with the same inputs. */
  lemma WritingKeepsBuilt(w: World, e: Event, i: nat)
    requires Coherent(w) && w.worker.Writing? && Step(w, e).worker.Writing?
    requires var w' := Step(w, e); i in w'.store.rows && (w'.store.rows[i].status == Ready || Built(w', i))
    ensures i in w.store.rows && SameInputs(w.store.rows[i], Step(w, e).store.rows[i]) && Built(w, i)
  {
    StepKeeps(w, e);
    if Writes(w, e) {
      assert Step(w, e).store.rows == w.store.rows;
    }
  }

  lemma WorkerGoesOn(es: seq<Event>, n: nat)
    requires n < |es| && Traced(es, n) && At(es, n + 1) == Step(At(es, n), es[n]) && At(es, n + 1).worker.Writing?
    ensures WritingFits(es, n + 1, At(es, n + 1), LogAt(es, n + 1))
  {
    var w, l := At(es, n), LogAt(es, n);
    WritingFrom(w, es[n]);
    if Opens(w, es[n]) {
      OpenedFits(es, n, l);
    } else {
      forall i | i in At(es, n + 1).store.rows && (At(es, n + 1).store.rows[i].status == Ready || Built(At(es, n + 1), i))
        ensures i in w.store.rows && SameInputs(w.store.rows[i], At(es, n + 1).store.rows[i]) && Built(w, i)
      {
        WritingKeepsBuilt(w, es[n], i);
      }
      WritingGoesOn(es, n, l);
      assert LogAt(es, n + 1).since == l.since;
      SameSince(es, n + 1, l, LogAt(es, n + 1));
    }
  }

  lemma SameSince(es: seq<Event>, n: nat, l: Log, l': Log)
    requires n <= |es| && At(es, n).worker.Writing? && l'.since == l.since && WritingFits(es, n, At(es, n), l)
    ensures WritingFits(es, n, At(es, n), l')
  {
  }

  lemma RowsGoOn(es: seq<Event>, n: nat)
    requires n < |es| && Traced(es, n) && At(es, n + 1) == Step(At(es, n), es[n])
    ensures RowsTraced(es, n + 1, At(es, n + 1), LogAt(es, n + 1))
  {
    var w, l, e := At(es, n), LogAt(es, n), es[n];
    StepKeeps(w, e);
    if Writes(w, e) {
      WrittenRows(es, n, l);
    } else if Finishes(w, e) {
      var m, w', l' := n + 1, At(es, n + 1), LogAt(es, n + 1);
      forall k | k in w'.store.mappings ensures RowTraced(es, m, w', l', k) {
        FinishedRows(es, n, l, k);
      }
    } else {
      PassingRows(es, n, l, LogAt(es, n + 1));
    }
  }

  lemma TracedStep(es: seq<Event>, n: nat)
    requires n < |es| && Traced(es, n)
    ensures Traced(es, n + 1)
  {
    AtNext(es, n);
    StepKeeps(At(es, n), es[n]);
    RowsGoOn(es, n);
    if At(es, n + 1).worker.Writing? {
      WorkerGoesOn(es, n);
    }
  }

  /** In every run each row between built indexes can be traced to the build that wrote it. */
  lemma {:induction false} AlwaysTraced(es: seq<Event>, n: nat)
    requires n <= |es|
    ensures Traced(es, n)
  {
    if n > 0 {
      AlwaysTraced(es, n - 1);
      TracedStep(es, n - 1);
    }
  }

  // ----- agreement -----

  /** A payload a reader of the pair `i`, `j` may be served. */
  predicate Served(w: World, i: nat, j: nat, ref: string) {
    && MapKey(i, j, ref) in w.store.mappings
    && i in w.store.rows && w.store.rows[i].status == Ready
    && j in w.store.rows && w.store.rows[j].status == Ready
  }

  /** The payload was resolved from both sides' inputs as they are now. */
  predicate UpToDate(w: World, i: nat, j: nat, ref: string)
    requires Served(w, i, j, ref)
  {
    w.store.mappings[MapKey(i, j, ref)] == Stamp(Current(w, w.store.rows[i].pair), Current(w, w.store.rows[j].pair))
  }

  /** The fingerprint of a ready index still matches its inputs. */
  predicate Matches(w: World, i: nat)
    requires i in w.store.rows
  {
    w.store.rows[i].fingerprint == Some(Current(w, w.store.rows[i].pair))
  }

  /** A sweep leaves only ready indexes whose fingerprint matches. */
  lemma SweepLeavesMatching(w: World, unreadable: set<Pair>, i: nat)
    requires w.worker.Idle?
    requires var w' := Step(w, Sweep(unreadable)); i in w'.store.rows && w'.store.rows[i].status == Ready
    ensures Matches(Step(w, Sweep(unreadable)), i)
  {
    var st := w.store;
    var current := map p | p in PairsOf(st) && p !in unreadable :: Current(w, p);
    assert i !in StaleRows(st, current);
  }

  // ----- exactly what is stale -----

  /** Where the payload comes from, by the log of the whole run. */
  function OriginOf(es: seq<Event>, i: nat, j: nat, ref: string): Option<Origin> {
    var l := LogAt(es, |es|);
    if MapKey(i, j, ref) in l.origins then Some(l.origins[MapKey(i, j, ref)]) else None
  }

  /** The step that last finished an index, or 0. */
  function FinishedAt(es: seq<Event>, i: nat): nat {
    var l := LogAt(es, |es|);
    if i in l.finished then l.finished[i] else 0
  }

  lemma WholeRun(es: seq<Event>)
    ensures At(es, |es|) == Run(Fresh(), es)
  {
    assert es[..|es|] == es;
  }

  /**
   * Every served payload was written for one of its two indexes in a build that has since finished:
   * from the step that opened the pair to the one that finished it the worker was on that build.
   */
  lemma ServedOrigin(es: seq<Event>, i: nat, j: nat, ref: string)
    requires Served(Run(Fresh(), es), i, j, ref)
    ensures OriginOf(es, i, j, ref).Some?
    ensures var o := OriginOf(es, i, j, ref).value;
            && (o.builder == i || o.builder == j)
            && o.since < FinishedAt(es, o.builder) < |es| && es[o.since].StartPair?
            && OneBuild(es, o.builder, o.since, FinishedAt(es, o.builder))
  {
    WholeRun(es);
    AlwaysTraced(es, |es|);
    assert RowTraced(es, |es|, At(es, |es|), LogAt(es, |es|), MapKey(i, j, ref));
  }

  /** An index is built over the whole run since the pair was opened, so its inputs are those of the stamp or newer. */
  lemma SideMoved(es: seq<Event>, i: nat, since: nat, to: nat)
    requires since < to <= |es| && Since(es, |es|, At(es, |es|), i, since)
    ensures var pair := At(es, |es|).store.rows[i].pair;
            && VersionOf(At(es, since), pair) <= VersionOf(At(es, to), pair)
            && (VersionOf(At(es, since), pair) != VersionOf(At(es, to), pair) <==> UnseenBetween(es, i, since, to))
  {
    var pair := At(es, |es|).store.rows[i].pair;
    assert Steady(es, i, pair, since, to);
    MovedIffUnseen(es, i, pair, since, to);
    OpeningMovesNothing(es, since, pair);
  }

  /**
   * In every run: a served payload is stale exactly when, since the step that opened its pair, a change
   * moved the inputs of one of the two indexes without putting that index back in the queue.
   */
  lemma StaleIff(es: seq<Event>, i: nat, j: nat, ref: string)
    requires Served(Run(Fresh(), es), i, j, ref)
    ensures OriginOf(es, i, j, ref).Some?
    ensures var since := OriginOf(es, i, j, ref).value.since;
            !UpToDate(Run(Fresh(), es), i, j, ref) <==> UnseenBetween(es, i, since, |es|) || UnseenBetween(es, j, since, |es|)
  {
    WholeRun(es);
    AlwaysTraced(es, |es|);
    assert RowTraced(es, |es|, At(es, |es|), LogAt(es, |es|), MapKey(i, j, ref));
    var since := OriginOf(es, i, j, ref).value.since;
    SideMoved(es, i, since, |es|);
    SideMoved(es, j, since, |es|);
  }

  /** The inputs a ready index was finished under are those of the end of the build that wrote the row. */
  lemma BuilderFinished(es: seq<Event>, i: nat, since: nat)
    requires Since(es, |es|, At(es, |es|), i, since)
    requires BuilderFits(es, |es|, At(es, |es|), LogAt(es, |es|), i, since)
    requires At(es, |es|).store.rows[i].status == Ready && Matches(At(es, |es|), i)
    ensures since < FinishedAt(es, i) < |es|
    ensures var pair := At(es, |es|).store.rows[i].pair;
            VersionOf(At(es, since), pair) != VersionOf(At(es, |es|), pair) <==> UnseenBetween(es, i, since, FinishedAt(es, i))
  {
    SideMoved(es, i, since, FinishedAt(es, i));
  }

  /** The counterpart has not moved: its fingerprint is older than the stamp, and still current. */
  lemma OtherUnmoved(es: seq<Event>, i: nat, since: nat)
    requires Since(es, |es|, At(es, |es|), i, since) && OtherFits(es, At(es, |es|), i, since)
    requires Matches(At(es, |es|), i)
    ensures var pair := At(es, |es|).store.rows[i].pair; VersionOf(At(es, since), pair) == VersionOf(At(es, |es|), pair)
  {
    SideMoved(es, i, since, |es|);
  }

  /**
   * With matching fingerprints on both sides a served payload is stale exactly when an unseen change of
   * the built index fell between the step that opened its pair and the end of that same build.
   */
  lemma MatchingStaleIff(es: seq<Event>, i: nat, j: nat, ref: string)
    requires var w := Run(Fresh(), es); Served(w, i, j, ref) && Matches(w, i) && Matches(w, j)
    ensures OriginOf(es, i, j, ref).Some?
    ensures var o := OriginOf(es, i, j, ref).value;
            !UpToDate(Run(Fresh(), es), i, j, ref) <==> UnseenBetween(es, o.builder, o.since, FinishedAt(es, o.builder))
  {
    WholeRun(es);
    AlwaysTraced(es, |es|);
    var k := MapKey(i, j, ref);
    assert RowTraced(es, |es|, At(es, |es|), LogAt(es, |es|), k);
    var o := OriginOf(es, i, j, ref).value;
    BuilderFinished(es, o.builder, o.since);
    OtherUnmoved(es, OtherSide(k, o.builder), o.since);
  }

  /** After a sweep that is exactly what can still be stale. */
  lemma SweptStaleIff(es: seq<Event>, i: nat, j: nat, ref: string)
    requires es != [] && es[|es| - 1].Sweep? && Run(Fresh(), es[..|es| - 1]).worker.Idle?
    requires Served(Run(Fresh(), es), i, j, ref)
    ensures OriginOf(es, i, j, ref).Some?
    ensures var o := OriginOf(es, i, j, ref).value;
            !UpToDate(Run(Fresh(), es), i, j, ref) <==> UnseenBetween(es, o.builder, o.since, FinishedAt(es, o.builder))
  {
    SweepLeavesMatching(Run(Fresh(), es[..|es| - 1]), es[|es| - 1].unreadable, i);
    SweepLeavesMatching(Run(Fresh(), es[..|es| - 1]), es[|es| - 1].unreadable, j);
    MatchingStaleIff(es, i, j, ref);
  }

  // ----- hooked runs -----

  ghost predicate AllMatch(w: World) {
    forall i :: i in w.store.rows && w.store.rows[i].status == Ready ==> Matches(w, i)
  }

  lemma WeakerMatches(w: World, w': World)
    requires AllMatch(w) && Weaker(w, w')
    ensures AllMatch(w')
  {
  }

  lemma FinishMatches(w: World)
    requires Coherent(w) && AllMatch(w) && w.worker.Pairing? && Runs(w.store, w.worker.id)
    ensures AllMatch(Finish(w))
  {
    assert Built(w, w.worker.id);
  }

  /** Only the end of a build makes an index ready. */
  lemma BuildKeepsReady(w: World, e: Event, i: nat)
    requires i in StepBuild(w, e).store.rows && StepBuild(w, e).store.rows[i].status == Ready && !Finishes(w, e)
    ensures i in w.store.rows && StepBuild(w, e).store.rows[i] == w.store.rows[i]
  {
  }

  lemma BuildMatches(w: World, e: Event)
    requires Coherent(w) && AllMatch(w)
    ensures AllMatch(StepBuild(w, e))
  {
    if Finishes(w, e) {
      FinishMatches(w);
    } else {
      BuildKeepsVersions(w, e);
      forall i | i in StepBuild(w, e).store.rows && StepBuild(w, e).store.rows[i].status == Ready
        ensures i in w.store.rows && StepBuild(w, e).store.rows[i] == w.store.rows[i]
      {
        BuildKeepsReady(w, e, i);
      }
    }
  }

  lemma ChangeMatches(w: World, e: Event)
    requires AllMatch(w) && Hooked(w, e) && IsChange(e)
    ensures AllMatch(StepChange(w, e))
  {
    var w' := StepChange(w, e);
    ChangePasses(w, e);
    forall i | i in w'.store.rows && w'.store.rows[i].status == Ready
      ensures VersionOf(w', w.store.rows[i].pair) == VersionOf(w, w.store.rows[i].pair)
    {
      HookedChangeSpares(w, e, i);
    }
  }

  /** An index that is ready after a hooked change has the inputs it had before. */
  lemma HookedChangeSpares(w: World, e: Event, i: nat)
    requires Hooked(w, e) && IsChange(e) && i in w.store.rows
    requires i in StepChange(w, e).store.rows && StepChange(w, e).store.rows[i].status == Ready
    ensures !Moves(w, e, w.store.rows[i].pair)
  {
    VersionsGrow(w, e, w.store.rows[i].pair);
    if Moves(w, e, w.store.rows[i].pair) {
      CaughtIsQueued(w, e, i);
    }
  }

  /** When every change is hooked, a ready index never falls behind its inputs. */
  lemma HookedStepMatches(w: World, e: Event)
    requires Coherent(w) && AllMatch(w) && Hooked(w, e)
    ensures AllMatch(Step(w, e))
  {
    var w' := Step(w, e);
    if e.Begin? || e.Clear? || e.StartPair? || e.Write? {
      BuildMatches(w, e);
    } else if IsChange(e) {
      ChangeMatches(w, e);
    } else if e.Fail? || e.Abandon? {
      EndWeakens(w, e);
      WeakerMatches(w, w');
    } else if e.Drain? || e.Sweep? {
      if w.worker.Idle? {
        IdleWeakens(w, e);
        WeakerMatches(w, w');
      }
    } else if !e.Claim? {
      RequestsWeaken(w, e);
      WeakerMatches(w, w');
    }
  }

  lemma {:induction false} HookedRunMatches(es: seq<Event>)
    requires HookedRun(es)
    ensures AllMatch(Run(Fresh(), es))
  {
    if es != [] {
      var init := es[..|es| - 1];
      HookedRunMatches(init);
      WholeRun(init);
      AlwaysTraced(init, |init|);
      HookedStepMatches(Run(Fresh(), init), es[|es| - 1]);
    }
  }

  lemma {:induction false} HookedAt(es: seq<Event>, q: nat)
    requires HookedRun(es) && q < |es|
    ensures Hooked(At(es, q), es[q])
  {
    var init := es[..|es| - 1];
    if q < |init| {
      HookedAt(init, q);
      assert init[..q] == es[..q];
    } else {
      assert init == es[..q];
    }
  }

  /** In a hooked run nothing goes unseen. */
  lemma HookedSeesAll(es: seq<Event>, q: nat, i: nat)
    requires HookedRun(es)
    ensures !Unseen(es, q, i)
  {
    if Unseen(es, q, i) {
      HookedAt(es, q);
      VersionsGrow(At(es, q), es[q], At(es, q).store.rows[i].pair);
      assert false;
    }
  }

  /**
   * Cache agreement: in every run of requests, hooked changes, crashes and worker steps, a payload served
   * for two ready indexes was resolved from their current inputs.
   */
  lemma CacheAgreesWithLive(es: seq<Event>, i: nat, j: nat, ref: string)
    requires HookedRun(es) && Served(Run(Fresh(), es), i, j, ref)
    ensures UpToDate(Run(Fresh(), es), i, j, ref)
  {
    StaleIff(es, i, j, ref);
    forall q, b ensures !Unseen(es, q, b) {
      HookedSeesAll(es, q, b);
    }
  }
}
