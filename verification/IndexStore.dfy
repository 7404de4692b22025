/** The index tables and what each request, hook and worker action does to them. */
module IndexStores {
  import opened Options

  /** A translation read through one versification; the unit an index covers. */
  datatype Pair = Pair(translation: nat, scheme: nat)

  datatype Status = Pending | Building | Ready | Cancelled | Failed

  /** What an index depends on: its verses and the mapping rows along its chain, at one version. */
  datatype Inputs = Inputs(pair: Pair, version: nat)

  /** `explicit` pins the versification; a defaulted index follows the preferred one. */
  datatype IndexRow = IndexRow(pair: Pair, explicit: bool, status: Status, cancel: bool, fingerprint: Option<Inputs>)

  datatype MapKey = MapKey(source: nat, target: nat, ref: string)

  /** Which inputs a stored payload was resolved from. */
  datatype Stamp = Stamp(source: Inputs, target: Inputs)

  /** Index rows, mapping rows (each with the inputs behind its payload), and the reclaim queue. */
  datatype Store = Store(rows: map<nat, IndexRow>, mappings: map<MapKey, Stamp>, reclaim: set<nat>)

  // ----- transitions -----

  function Queued(row: IndexRow): IndexRow {
    row.(status := Pending, cancel := false)
  }

  function Requeued(rows: map<nat, IndexRow>, ids: set<nat>): map<nat, IndexRow> {
    map i | i in rows :: if i in ids then Queued(rows[i]) else rows[i]
  }

  function Requeue(st: Store, ids: set<nat>): Store {
    st.(rows := Requeued(st.rows, ids))
  }

  function OfTranslation(st: Store, translation: nat): set<nat> {
    set i | i in st.rows && st.rows[i].pair.translation == translation
  }

  function OfScheme(st: Store, scheme: nat): set<nat> {
    set i | i in st.rows && st.rows[i].pair.scheme == scheme
  }

  /** Remove index rows, leaving their mapping rows to the reclaim queue. */
  function Drop(st: Store, ids: set<nat>): Store {
    Store(map i | i in st.rows && i !in ids :: st.rows[i], st.mappings,
          st.reclaim + set i | i in ids && i in st.rows)
  }

  predicate Occupied(st: Store, pair: Pair) {
    exists i :: i in st.rows && st.rows[i].pair == pair
  }

  predicate OccupiedByOther(st: Store, pair: Pair, id: nat) {
    exists i :: i in st.rows && i != id && st.rows[i].pair == pair
  }

  function Create(st: Store, id: nat, pair: Pair, explicit: bool): Store {
    st.(rows := st.rows[id := IndexRow(pair, explicit, Pending, false, None)])
  }

  /** Point an index at another versification and queue it. */
  function Repoint(st: Store, id: nat, scheme: nat, explicit: bool): Store
    requires id in st.rows
  {
    var row := st.rows[id];
    st.(rows := st.rows[id := Queued(row.(pair := Pair(row.pair.translation, scheme), explicit := explicit))])
  }

  /** A queued index is cancelled at once; a running build is asked to stop. */
  function Cancel(st: Store, id: nat): Store
    requires id in st.rows
  {
    var row := st.rows[id];
    st.(rows := st.rows[id := if row.status == Pending then row.(status := Cancelled, cancel := false) else row.(cancel := true)])
  }

  function BuildingRows(st: Store): set<nat> {
    set i | i in st.rows && st.rows[i].status == Building
  }

  /** A stopped build: cancelled when that was asked for, else queued again. */
  function RecoveredRow(row: IndexRow): IndexRow {
    if row.status != Building then row
    else if row.cancel then row.(status := Cancelled, cancel := false)
    else Queued(row)
  }

  function Recover(st: Store, ids: set<nat>): Store {
    st.(rows := map i | i in st.rows :: if i in ids then RecoveredRow(st.rows[i]) else st.rows[i])
  }

  predicate Touches(k: MapKey, id: nat) {
    k.source == id || k.target == id
  }

  function SideOf(st: Store, id: nat, outbound: bool): set<MapKey> {
    set k | k in st.mappings && (if outbound then k.source == id else k.target == id)
  }

  function Touching(st: Store, id: nat): set<MapKey> {
    set k | k in st.mappings && Touches(k, id)
  }

  function Erase(st: Store, gone: set<MapKey>): Store {
    st.(mappings := st.mappings - gone)
  }

  /** Sides of mapping rows that are no index. */
  function Orphans(st: Store): set<nat> {
    (set k | k in st.mappings && k.source !in st.rows :: k.source)
    + (set k | k in st.mappings && k.target !in st.rows :: k.target)
  }

  /** Insert or replace one page of payloads. */
  function Upsert(st: Store, source: nat, target: nat, refs: set<string>, stamp: Stamp): Store {
    st.(mappings := map k | k in st.mappings.Keys + (set r | r in refs :: MapKey(source, target, r)) ::
          if k.source == source && k.target == target && k.ref in refs then stamp else st.mappings[k])
  }

  /** Nothing touches the index any more exactly when all that touched it is gone. */
  lemma ErasedTouching(st: Store, id: nat, gone: set<MapKey>)
    requires gone <= Touching(st, id)
    ensures Touching(Erase(st, gone), id) == {} <==> Touching(st, id) == gone
  {
    assert Touching(Erase(st, gone), id) == Touching(st, id) - gone;
    if Touching(Erase(st, gone), id) == {} {
      forall k | k in Touching(st, id) ensures k in gone {
        assert k in gone || k in Touching(st, id) - gone;
      }
    }
  }

  predicate Unique(st: Store) {
    forall i, j :: i in st.rows && j in st.rows && st.rows[i].pair == st.rows[j].pair ==> i == j
  }

  // ----- the operations -----

  datatype Outcome = Done | NotFound | Conflict

  class IndexRegistry {
    var st: Store

    constructor ()
      ensures st == Store(map[], map[], {})
    {
      st := Store(map[], map[], {});
    }

    method CreateIndex(id: nat, pair: Pair, explicit: bool) returns (outcome: Outcome)
      requires id !in st.rows
      modifies this
      ensures outcome == if Occupied(old(st), pair) then Conflict else Done
      ensures st == if outcome == Done then Create(old(st), id, pair, explicit) else old(st)
    {
      if exists i :: i in st.rows && st.rows[i].pair == pair {
        return Conflict;
      }
      st := st.(rows := st.rows[id := IndexRow(pair, explicit, Pending, false, None)]);
      outcome := Done;
    }

    method SetVersification(id: nat, scheme: nat) returns (outcome: Outcome)
      modifies this
      ensures outcome == if id !in old(st).rows then NotFound
                         else if OccupiedByOther(old(st), Pair(old(st).rows[id].pair.translation, scheme), id) then Conflict
                         else Done
      ensures st == if outcome == Done then Repoint(old(st), id, scheme, true) else old(st)
    {
      if id !in st.rows {
        return NotFound;
      }
      var row := st.rows[id];
      var pair := Pair(row.pair.translation, scheme);
      if exists i :: i in st.rows && i != id && st.rows[i].pair == pair {
        return Conflict;
      }
      row := row.(pair := pair, explicit := true);
      row := row.(status := Pending, cancel := false);
      st := st.(rows := st.rows[id := row]);
      outcome := Done;
    }

    /** Idempotent: an id already queued stays queued once. */
    method QueueReclaim(ids: set<nat>)
      modifies this
      ensures st == old(st).(reclaim := old(st).reclaim + ids)
    {
      var rest := ids;
      while rest != {}
        invariant rest <= ids && st == old(st).(reclaim := old(st).reclaim + (ids - rest))
        decreases rest
      {
        var id :| id in rest;
        rest := rest - {id};
        if id !in st.reclaim {
          st := st.(reclaim := st.reclaim + {id});
        }
      }
    }

    method DeleteIndex(id: nat) returns (outcome: Outcome)
      modifies this
      ensures outcome == if id in old(st).rows then Done else NotFound
      ensures st == Drop(old(st), {id})
    {
      if id !in st.rows {
        assert Drop(st, {id}).rows == st.rows && Drop(st, {id}).reclaim == st.reclaim;
        return NotFound;
      }
      QueueReclaim({id});
      st := st.(rows := st.rows - {id});
      assert st.rows == Drop(old(st), {id}).rows;
      assert st.reclaim == Drop(old(st), {id}).reclaim;
      outcome := Done;
    }

    method RequestRebuild(id: nat) returns (outcome: Outcome)
      modifies this
      ensures outcome == if id in old(st).rows then Done else NotFound
      ensures st == Requeue(old(st), {id})
    {
      if id !in st.rows {
        assert Requeued(st.rows, {id}) == st.rows;
        return NotFound;
      }
      st := st.(rows := st.rows[id := Queued(st.rows[id])]);
      assert st.rows == Requeued(old(st).rows, {id});
      outcome := Done;
    }

    method RequestCancel(id: nat) returns (outcome: Outcome)
      modifies this
      ensures outcome == if id !in old(st).rows then NotFound
                         else if old(st).rows[id].status in {Pending, Building} then Done
                         else Conflict
      ensures st == if outcome == Done then Cancel(old(st), id) else old(st)
    {
      if id !in st.rows {
        return NotFound;
      }
      var row := st.rows[id];
      if row.status != Pending && row.status != Building {
        return Conflict;
      }
      row := row.(cancel := true);
      if row.status == Pending {
        row := row.(status := Cancelled);
        row := row.(cancel := false);
      }
      st := st.(rows := st.rows[id := row]);
      outcome := Done;
    }

    method RequeueAll(ids: set<nat>)
      requires ids <= st.rows.Keys
      modifies this
      ensures st == Requeue(old(st), ids)
    {
      var rest := ids;
      assert st.rows == Requeued(st.rows, {});
      while rest != {}
        invariant rest <= ids && st.rows.Keys == old(st).rows.Keys
        invariant st == Requeue(old(st), ids - rest)
        decreases rest
      {
        var id :| id in rest;
        ghost var before := rest;
        rest := rest - {id};
        st := st.(rows := st.rows[id := Queued(st.rows[id])]);
        assert ids - rest == (ids - before) + {id};
        assert st.rows == Requeued(old(st).rows, ids - rest);
      }
    }

    method InvalidateForTranslation(translation: nat) returns (count: nat)
      modifies this
      ensures st == Requeue(old(st), OfTranslation(old(st), translation))
      ensures count == |OfTranslation(old(st), translation)|
    {
      var ids := OfTranslation(st, translation);
      RequeueAll(ids);
      count := |ids|;
    }

    method InvalidateForScheme(scheme: nat) returns (count: nat)
      modifies this
      ensures st == Requeue(old(st), OfScheme(old(st), scheme))
      ensures count == |OfScheme(old(st), scheme)|
    {
      var ids := OfScheme(st, scheme);
      RequeueAll(ids);
      count := |ids|;
    }

    method DropAll(ids: set<nat>)
      requires ids <= st.rows.Keys
      modifies this
      ensures st == Drop(old(st), ids)
    {
      QueueReclaim(ids);
      var rest := ids;
      ghost var queued := st;
      while rest != {}
        invariant rest <= ids
        invariant st == queued.(rows := queued.rows - (ids - rest))
        decreases rest
      {
        var id :| id in rest;
        rest := rest - {id};
        st := st.(rows := st.rows - {id});
      }
      assert st.rows == Drop(old(st), ids).rows;
      assert st.reclaim == Drop(old(st), ids).reclaim;
    }

    method DropForTranslation(translation: nat) returns (count: nat)
      modifies this
      ensures st == Drop(old(st), OfTranslation(old(st), translation))
      ensures count == |OfTranslation(old(st), translation)|
    {
      var ids := OfTranslation(st, translation);
      DropAll(ids);
      count := |ids|;
    }

    method DropForScheme(scheme: nat) returns (count: nat)
      modifies this
      ensures st == Drop(old(st), OfScheme(old(st), scheme))
      ensures count == |OfScheme(old(st), scheme)|
    {
      var ids := OfScheme(st, scheme);
      DropAll(ids);
      count := |ids|;
    }

    /**
     * Move defaulted indexes onto the preferred versification. The first one moves if the new pair is
     * free; every later one then collides and stays.
     */
    method RetargetDefaultIndexes(translation: nat, scheme: nat) returns (moved: Option<nat>)
      modifies this
      ensures st == if moved.Some? && moved.value in old(st).rows then Repoint(old(st), moved.value, scheme, false) else old(st)
      ensures moved.Some? ==> moved.value in Defaulted(old(st), translation, scheme)
                              && !Occupied(old(st), Pair(translation, scheme))
      ensures moved.None? ==> Defaulted(old(st), translation, scheme) == {} || Occupied(old(st), Pair(translation, scheme))
    {
      var pair := Pair(translation, scheme);
      var ids := Defaulted(st, translation, scheme);
      var rest := ids;
      moved := None;
      while rest != {}
        invariant rest <= ids
        invariant moved.None? ==> st == old(st) && (rest == ids || Occupied(old(st), pair))
        invariant moved.Some? ==> moved.value in ids - rest && !Occupied(old(st), pair)
                                  && st == Repoint(old(st), moved.value, scheme, false)
        decreases rest
      {
        var id :| id in rest;
        rest := rest - {id};
        assert moved.Some? ==> moved.value in st.rows && moved.value != id && st.rows[moved.value].pair == pair;
        if exists i :: i in st.rows && i != id && st.rows[i].pair == pair {
          assert moved.Some? || Occupied(old(st), pair);
          continue;
        }
        st := st.(rows := st.rows[id := Queued(st.rows[id].(pair := pair))]);
        moved := Some(id);
      }
    }

    /** Startup recovery of builds a crash left behind. */
    method RecoverOrphanedBuilds() returns (count: nat)
      modifies this
      ensures st == Recover(old(st), old(st).rows.Keys)
      ensures count == |BuildingRows(old(st))|
    {
      var ids := BuildingRows(st);
      var rest := ids;
      count := |ids|;
      assert Recover(st, {}).rows == st.rows;
      while rest != {}
        invariant rest <= ids && st.rows.Keys == old(st).rows.Keys
        invariant st == Recover(old(st), ids - rest)
        decreases rest
      {
        var id :| id in rest;
        ghost var before := rest;
        rest := rest - {id};
        var row := st.rows[id];
        if row.cancel {
          row := row.(status := Cancelled, cancel := false);
        } else {
          row := row.(status := Pending, cancel := false);
        }
        st := st.(rows := st.rows[id := row]);
        assert ids - rest == (ids - before) + {id};
        assert st.rows == Recover(old(st), ids - rest).rows;
      }
      assert st.rows == Recover(old(st), old(st).rows.Keys).rows;
    }

    /** Startup safety net: queue every side of a mapping row that is no index. */
    method PurgeOrphanMappings() returns (count: nat)
      modifies this
      ensures st == old(st).(reclaim := old(st).reclaim + Orphans(old(st))) && count == |Orphans(old(st))|
    {
      var orphans := Orphans(st);
      if orphans == {} {
        assert st.reclaim + orphans == st.reclaim;
        return 0;
      }
      QueueReclaim(orphans);
      count := |orphans|;
    }

    /** Delete up to one page of the mapping rows whose source (or target) is `id`. */
    method DeleteMappingSide(id: nat, outbound: bool, chunk: nat) returns (gone: set<MapKey>)
      modifies this
      ensures gone <= Touching(old(st), id) && st == Erase(old(st), gone) && |gone| <= chunk
      ensures chunk > 0 && gone == {} ==> SideOf(old(st), id, outbound) == {}
    {
      var side := SideOf(st, id, outbound);
      gone := {};
      while side != {} && |gone| < chunk
        invariant gone <= Touching(old(st), id) && side <= Touching(old(st), id) && |gone| <= chunk
        invariant gone == {} ==> side == SideOf(old(st), id, outbound)
        invariant st == old(st) && gone !! side
        decreases side
      {
        var k :| k in side;
        side := side - {k};
        gone := gone + {k};
      }
      st := st.(mappings := st.mappings - gone);
    }

    /** One page in each direction; nothing is deleted only when nothing is left. */
    method DeleteMappingChunk(id: nat, chunk: nat) returns (gone: set<MapKey>)
      modifies this
      ensures gone <= Touching(old(st), id) && st == Erase(old(st), gone) && |gone| <= 2 * chunk
      ensures chunk > 0 && gone == {} ==> Touching(old(st), id) == {}
    {
      var outbound := DeleteMappingSide(id, true, chunk);
      var inbound := DeleteMappingSide(id, false, chunk);
      gone := outbound + inbound;
      assert st.mappings == old(st).mappings - gone;
      assert gone == {} ==> outbound == {} && inbound == {};
      assert SideOf(old(st), id, true) == {} && SideOf(old(st), id, false) == {} ==> Touching(old(st), id) == {};
    }

    /** One page of work on one queue entry; an entry whose index lives is dropped untouched. */
    method DrainReclaim(chunk: nat) returns (item: Option<nat>, gone: set<MapKey>)
      modifies this
      ensures item.None? ==> old(st).reclaim == {} && gone == {} && st == old(st)
      ensures item.Some? ==> item.value in old(st).reclaim
      ensures item.Some? && item.value in old(st).rows ==>
                gone == {} && st == old(st).(reclaim := old(st).reclaim - {item.value})
      ensures item.Some? && item.value !in old(st).rows ==>
                gone <= Touching(old(st), item.value)
                && st == Erase(old(st), gone).(reclaim := if Touching(old(st), item.value) == gone
                                                          then old(st).reclaim - {item.value} else old(st).reclaim)
      ensures |gone| <= 2 * chunk
      ensures item.Some? && item.value !in old(st).rows && chunk > 0 && gone == {} ==> Touching(old(st), item.value) == {}
    {
      gone := {};
      if st.reclaim == {} {
        return None, gone;
      }
      var id :| id in st.reclaim;
      item := Some(id);
      if id in st.rows {
        st := st.(reclaim := st.reclaim - {id});
        return;
      }
      gone := DeleteMappingChunk(id, chunk);
      ErasedTouching(old(st), id, gone);
      if Touching(st, id) == {} {
        st := st.(reclaim := st.reclaim - {id});
      }
    }

    /** Both indexes exist and are ready, or the caller resolves live. */
    method FindReadyPair(source: Pair, target: Pair) returns (found: Option<(nat, nat)>)
      ensures found.Some? ==> ReadyAt(st, found.value.0, source) && ReadyAt(st, found.value.1, target)
      ensures found.None? ==> (forall i :: !ReadyAt(st, i, source)) || (forall j :: !ReadyAt(st, j, target))
    {
      var sources := set i | i in st.rows && ReadyAt(st, i, source);
      var targets := set j | j in st.rows && ReadyAt(st, j, target);
      if sources == {} || targets == {} {
        assert forall i :: ReadyAt(st, i, source) ==> i in sources;
        assert forall j :: ReadyAt(st, j, target) ==> j in targets;
        return None;
      }
      var i :| i in sources;
      var j :| j in targets;
      found := Some((i, j));
    }

    /** Re-queue ready indexes whose inputs moved since they were built, or whose inputs cannot be read. */
    method SweepFingerprints(current: map<Pair, Inputs>) returns (count: nat)
      modifies this
      ensures st == Requeue(old(st), StaleRows(old(st), current)) && count == |StaleRows(old(st), current)|
    {
      var ids := StaleRows(st, current);
      RequeueAll(ids);
      count := |ids|;
    }
  }

  function Defaulted(st: Store, translation: nat, scheme: nat): set<nat> {
    set i | i in st.rows && st.rows[i].pair.translation == translation && !st.rows[i].explicit && st.rows[i].pair.scheme != scheme
  }

  predicate ReadyAt(st: Store, id: nat, pair: Pair) {
    id in st.rows && st.rows[id].pair == pair && st.rows[id].status == Ready
  }

  /** `current` misses a pair whose chain cannot be walked. */
  function StaleRows(st: Store, current: map<Pair, Inputs>): set<nat> {
    set i | i in st.rows && st.rows[i].status == Ready
            && (st.rows[i].pair !in current || st.rows[i].fingerprint != Some(current[st.rows[i].pair]))
  }
}
