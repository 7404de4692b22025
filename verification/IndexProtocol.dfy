/** The index builder as a state machine: requests, input changes and one lock-holding worker, interleaved freely. */
module IndexProtocol {
  import opened Options
  import opened IndexStores

  /** Where the worker stands between two commits. */
  datatype Worker =
    | Idle
    | Claimed(id: nat)
    | Clearing(id: nat, others: seq<nat>)
    // about to open the outbound pair with others[0], or the inbound one once its pair is known
    | Pairing(id: nat, own: Pair, others: seq<nat>, known: Option<Pair>)
    | Writing(id: nat, own: Pair, others: seq<nat>, theirs: Pair, inbound: bool, stamp: Stamp, refs: set<string>)

  datatype World = World(store: Store, versions: map<Pair, nat>, worker: Worker)

  function VersionOf(w: World, pair: Pair): nat {
    if pair in w.versions then w.versions[pair] else 0
  }

  /** The inputs of a pair as they are now. */
  function Current(w: World, pair: Pair): Inputs {
    Inputs(pair, VersionOf(w, pair))
  }

  /** Every change gives the inputs a version they never had. */
  function Bump(w: World, affected: set<Pair>): World {
    w.(versions := map p | p in w.versions.Keys + affected :: if p in affected then VersionOf(w, p) + 1 else VersionOf(w, p))
  }

  datatype PairStart = SkipBoth | Unbuildable | Refs(refs: set<string>)

  datatype Event =
    // requests
    | CreateIndex(id: nat, pair: Pair, explicit: bool)
    | SetVersification(id: nat, scheme: nat)
    | DeleteIndex(id: nat)
    | Rebuild(id: nat)
    | RequestCancel(id: nat)
    // input changes and their hooks
    | TranslationUpdated(translation: nat, affected: set<Pair>)
    | SchemeUpdated(scheme: nat, affected: set<Pair>)
    | PreferredMoved(translation: nat, scheme: nat, affected: set<Pair>, moved: Option<nat>)
    | ChainChanged(affected: set<Pair>)
    | TranslationDeleted(translation: nat)
    | SchemeDeleted(scheme: nat)
    // process start
    | RecoverOrphans
    | PurgeOrphans
    // the worker
    | Drain(item: nat, gone: set<MapKey>)
    | Sweep(unreadable: set<Pair>)
    | Claim(id: nat)
    | Begin(others: seq<nat>)
    | Clear(gone: set<MapKey>)
    | StartPair(start: PairStart)
    | Write(page: set<string>, left: set<string>)
    | Fail
    | Abandon

  /** The build is still the current request. */
  predicate Runs(st: Store, id: nat) {
    id in st.rows && st.rows[id].status == Building && !st.rows[id].cancel
  }

  /** The build stops; a requested cancel is applied on the way out. */
  function Stop(w: World, id: nat): World {
    var st := w.store;
    var rows := if id in st.rows && st.rows[id].status == Building && st.rows[id].cancel
                then st.rows[id := st.rows[id].(status := Cancelled, cancel := false)] else st.rows;
    w.(store := st.(rows := rows), worker := Idle)
  }

  function ReadyOthers(st: Store, id: nat): set<nat> {
    set i | i in st.rows && i != id && st.rows[i].status == Ready
  }

  predicate CanRetarget(st: Store, moved: nat, translation: nat, scheme: nat) {
    moved in Defaulted(st, translation, scheme) && !Occupied(st, Pair(translation, scheme))
  }

  function StepRequest(w: World, e: Event): World {
    var st := w.store;
    match e
    case CreateIndex(id, pair, explicit) =>
      if id in st.rows || Occupied(st, pair) then w else w.(store := Create(st, id, pair, explicit))
    case SetVersification(id, scheme) =>
      if id !in st.rows || OccupiedByOther(st, Pair(st.rows[id].pair.translation, scheme), id) then w
      else w.(store := Repoint(st, id, scheme, true))
    case DeleteIndex(id) => w.(store := Drop(st, {id}))
    case Rebuild(id) => w.(store := Requeue(st, {id}))
    case RequestCancel(id) =>
      if id in st.rows && st.rows[id].status in {Pending, Building} then w.(store := Cancel(st, id)) else w
    case TranslationDeleted(translation) => w.(store := Drop(st, OfTranslation(st, translation)))
    case SchemeDeleted(scheme) => w.(store := Drop(st, OfScheme(st, scheme)))
    case RecoverOrphans => w.(store := Recover(st, st.rows.Keys))
    case PurgeOrphans => w.(store := st.(reclaim := st.reclaim + Orphans(st)))
    case _ => w
  }

  function StepChange(w: World, e: Event): World {
    var st := w.store;
    match e
    case TranslationUpdated(translation, affected) =>
      if exists p :: p in affected && p.translation != translation then w
      else Bump(w, affected).(store := Requeue(st, OfTranslation(st, translation)))
    case SchemeUpdated(scheme, affected) =>
      Bump(w, affected).(store := Requeue(st, OfScheme(st, scheme)))
    case PreferredMoved(translation, scheme, affected, moved) =>
      if moved.Some? && CanRetarget(st, moved.value, translation, scheme)
      then Bump(w, affected).(store := Repoint(st, moved.value, scheme, false))
      else Bump(w, affected)
    case ChainChanged(affected) => Bump(w, affected)
    case _ => w
  }

  function StepIdle(w: World, e: Event): World {
    var st := w.store;
    match e
    case Drain(item, gone) =>
      if item !in st.reclaim then w
      else if item in st.rows then w.(store := st.(reclaim := st.reclaim - {item}))
      else if !(gone <= Touching(st, item)) then w
      else w.(store := Erase(st, gone).(reclaim := if Touching(st, item) == gone then st.reclaim - {item} else st.reclaim))
    case Sweep(unreadable) =>
      w.(store := Requeue(st, StaleRows(st, map p | p in PairsOf(st) && p !in unreadable :: Current(w, p))))
    case Claim(id) =>
      if id !in st.rows || st.rows[id].status != Pending then w
      else if st.rows[id].cancel then w.(store := st.(rows := st.rows[id := st.rows[id].(status := Cancelled, cancel := false)]))
      else World(st.(rows := st.rows[id := st.rows[id].(status := Building)]), w.versions, Claimed(id))
    case _ => w
  }

  function PairsOf(st: Store): set<Pair> {
    set i | i in st.rows :: st.rows[i].pair
  }

  function Finish(w: World): World
    requires w.worker.Pairing? && w.worker.id in w.store.rows
  {
    var id, row := w.worker.id, w.store.rows[w.worker.id];
    var fingerprint := Current(w, Pair(row.pair.translation, w.worker.own.scheme));
    World(w.store.(rows := w.store.rows[id := row.(status := Ready, fingerprint := Some(fingerprint))]), w.versions, Idle)
  }

  /** Outbound rows go from the built index to its counterpart, inbound rows the other way. */
  function StampFor(w: World, own: Pair, theirs: Pair, inbound: bool): Stamp {
    if inbound then Stamp(Current(w, theirs), Current(w, own)) else Stamp(Current(w, own), Current(w, theirs))
  }

  function OpenPair(w: World, start: PairStart): World
    requires w.worker.Pairing? && w.worker.others != []
    requires w.worker.known.None? ==> w.worker.others[0] in w.store.rows
  {
    var Pairing(id, own, others, known) := w.worker;
    var inbound := known.Some?;
    var theirs := if inbound then known.value else w.store.rows[others[0]].pair;
    match start
    case SkipBoth => w.(worker := Pairing(id, own, others[1..], None))
    case Unbuildable =>
      w.(worker := if inbound then Pairing(id, own, others[1..], None) else Pairing(id, own, others, Some(theirs)))
    case Refs(refs) => w.(worker := Writing(id, own, others, theirs, inbound, StampFor(w, own, theirs, inbound), refs))
  }

  function StepBuild(w: World, e: Event): World {
    var st := w.store;
    match w.worker
    case Idle => w
    case Claimed(id) =>
      if !e.Begin? || (set i | i in e.others) != ReadyOthers(st, id) then w
      else if id !in st.rows then w.(worker := Idle)
      else w.(worker := Clearing(id, e.others))
    case Clearing(id, others) =>
      if !e.Clear? || !(e.gone <= Touching(st, id)) then w
      else if !Runs(st, id) then Stop(w, id)
      else if e.gone != {} then w.(store := Erase(st, e.gone))
      else if Touching(st, id) != {} then w
      else w.(worker := Pairing(id, st.rows[id].pair, others, None))
    case Pairing(id, own, others, known) =>
      if !e.StartPair? then w
      else if !Runs(st, id) then Stop(w, id)
      else if others == [] then Finish(w)
      else if known.None? && others[0] !in st.rows then w.(worker := Idle)
      else OpenPair(w, e.start)
    case Writing(id, own, others, theirs, inbound, stamp, refs) =>
      if !e.Write? || !(e.page <= refs) || !(e.left <= refs) || others == [] then w
      else if !Runs(st, id) then Stop(w, id)
      else
        var source, target := if inbound then others[0] else id, if inbound then id else others[0];
        World(Upsert(st, source, target, e.page, stamp), w.versions,
              if e.left != {} then Writing(id, own, others, theirs, inbound, stamp, e.left)
              else if inbound then Pairing(id, own, others[1..], None)
              else Pairing(id, own, others, Some(theirs)))
  }

  /** An exception marks the row failed whatever its status has become; a crash leaves it as it is. */
  function StepEnd(w: World, e: Event): World {
    var st := w.store;
    if w.worker.Idle? then w
    else if e.Abandon? || w.worker.id !in st.rows then w.(worker := Idle)
    else World(st.(rows := st.rows[w.worker.id := st.rows[w.worker.id].(status := Failed)]), w.versions, Idle)
  }

  /** One atomic step; an event that does not apply changes nothing. */
  function Step(w: World, e: Event): World {
    if e.Fail? || e.Abandon? then StepEnd(w, e)
    else if e.Begin? || e.Clear? || e.StartPair? || e.Write? then StepBuild(w, e)
    else if e.Drain? || e.Sweep? || e.Claim? then if w.worker.Idle? then StepIdle(w, e) else w
    else if e.TranslationUpdated? || e.SchemeUpdated? || e.PreferredMoved? || e.ChainChanged? then StepChange(w, e)
    else StepRequest(w, e)
  }

  function Run(w: World, es: seq<Event>): World {
    if es == [] then w else Step(Run(w, es[..|es| - 1]), es[|es| - 1])
  }

  function Fresh(): World {
    World(Store(map[], map[], {}), map[], Idle)
  }

  // ----- hooks -----

  function Affected(e: Event): set<Pair> {
    match e
    case TranslationUpdated(translation, affected) => affected
    case SchemeUpdated(scheme, affected) => affected
    case PreferredMoved(translation, scheme, affected, moved) => affected
    case ChainChanged(affected) => affected
    case _ => {}
  }

  /** Index rows the change puts back in the queue. */
  function Caught(w: World, e: Event): set<nat> {
    match e
    case TranslationUpdated(translation, affected) => OfTranslation(w.store, translation)
    case SchemeUpdated(scheme, affected) => OfScheme(w.store, scheme)
    case PreferredMoved(translation, scheme, affected, moved) =>
      if moved.Some? && CanRetarget(w.store, moved.value, translation, scheme) then {moved.value} else {}
    case _ => {}
  }

  /** Every index whose inputs the event changes is put back in the queue by it. */
  ghost predicate Hooked(w: World, e: Event) {
    forall i :: i in w.store.rows && w.store.rows[i].pair in Affected(e) ==> i in Caught(w, e)
  }

  /** The worker is past clearing this index. */
  predicate PastClear(worker: Worker, i: nat) {
    (worker.Pairing? || worker.Writing?) && worker.id == i
  }

  ghost predicate HookedRun(es: seq<Event>) {
    es == [] || (HookedRun(es[..|es| - 1]) && Hooked(Run(Fresh(), es[..|es| - 1]), es[|es| - 1]))
  }
}
