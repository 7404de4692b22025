/** A change no hook sees, falling inside a build, is served stale and no sweep ever notices. */
module StaleBuild {
  import opened Options
  import opened IndexStores
  import opened IndexProtocol
  import opened BuildLogs
  import opened IndexCoherence

  const A := Pair(0, 0)
  const B := Pair(1, 1)
  const REF := "GEN 1:1"

  function Row(pair: Pair, status: Status, fingerprint: Option<Inputs>): IndexRow {
    IndexRow(pair, true, status, false, fingerprint)
  }

  /** Build the first index alone. */
  function FirstBuild(): seq<Event> {
    [CreateIndex(1, A, true), Claim(1), Begin([]), Clear({}), StartPair(SkipBoth)]
  }

  /** Start the second, write its outbound row. */
  function SecondBuild(): seq<Event> {
    [CreateIndex(2, B, true), Claim(2), Begin([1]), Clear({}), StartPair(Refs({REF})), Write({REF}, {})]
  }

  /** Its chain changes unseen; the build goes on, finishes, and a sweep runs. */
  function Ending(): seq<Event> {
    [ChainChanged({B}), StartPair(Unbuildable), StartPair(SkipBoth), Sweep({})]
  }

  lemma {:induction false} RunAppend(w: World, xs: seq<Event>, ys: seq<Event>)
    ensures Run(w, xs + ys) == Run(Run(w, xs), ys)
  {
    if ys == [] {
      assert xs + ys == xs;
    } else {
      RunAppend(w, xs, ys[..|ys| - 1]);
      assert (xs + ys)[..|xs + ys| - 1] == xs + ys[..|ys| - 1];
    }
  }

  /** A chain of single steps is a run. */
  lemma {:induction false} ChainRuns(ws: seq<World>, es: seq<Event>)
    requires |ws| == |es| + 1 && forall i, j :: 0 <= i < |es| && j == i + 1 ==> Step(ws[i], es[i]) == ws[j]
    ensures Run(ws[0], es) == ws[|es|]
  {
    if es != [] {
      var n := |es| - 1;
      ChainRuns(ws[..n + 1], es[..n]);
      assert Step(ws[n], es[n]) == ws[n + 1];
    }
  }

  const ROW_A := Row(A, Ready, Some(Inputs(A, 0)))

  function Alone(row: IndexRow, worker: Worker): World {
    World(Store(map[1 := row], map[], {}), map[], worker)
  }

  function Two(status: Status, worker: Worker): World {
    World(Store(map[1 := ROW_A, 2 := Row(B, status, None)], map[], {}), map[], worker)
  }

  function Written(): map<MapKey, Stamp> {
    map[MapKey(2, 1, REF) := Stamp(Inputs(B, 0), Inputs(A, 0))]
  }

  function MidBuild(versions: map<Pair, nat>, others: seq<nat>, known: Option<Pair>): World {
    World(Store(map[1 := ROW_A, 2 := Row(B, Building, None)], Written(), {}), versions, Pairing(2, B, others, known))
  }

  function Ended(): World {
    World(Store(map[1 := ROW_A, 2 := Row(B, Ready, Some(Inputs(B, 1)))], Written(), {}), map[B := 1], Idle)
  }

  function FirstWorlds(): seq<World> {
    [Fresh(), Alone(Row(A, Pending, None), Idle), Alone(Row(A, Building, None), Claimed(1)),
     Alone(Row(A, Building, None), Clearing(1, [])), Alone(Row(A, Building, None), Pairing(1, A, [], None)),
     Alone(ROW_A, Idle)]
  }

  lemma FirstStarts()
    ensures Step(Fresh(), CreateIndex(1, A, true)) == Alone(Row(A, Pending, None), Idle)
    ensures Step(Alone(Row(A, Pending, None), Idle), Claim(1)) == Alone(Row(A, Building, None), Claimed(1))
    ensures Step(Alone(Row(A, Building, None), Claimed(1)), Begin([])) == Alone(Row(A, Building, None), Clearing(1, []))
  {
    assert ReadyOthers(Alone(Row(A, Building, None), Claimed(1)).store, 1) == {};
  }

  lemma FirstEnds()
    ensures Step(Alone(Row(A, Building, None), Clearing(1, [])), Clear({})) == Alone(Row(A, Building, None), Pairing(1, A, [], None))
    ensures Step(Alone(Row(A, Building, None), Pairing(1, A, [], None)), StartPair(SkipBoth)) == Alone(ROW_A, Idle)
  {
    assert Touching(Alone(Row(A, Building, None), Clearing(1, [])).store, 1) == {};
  }

  lemma FirstBuilt()
    ensures Run(Fresh(), FirstBuild()) == Alone(ROW_A, Idle)
  {
    FirstStarts();
    FirstEnds();
    ChainRuns(FirstWorlds(), FirstBuild());
  }

  lemma SecondStarts()
    ensures Step(Alone(ROW_A, Idle), CreateIndex(2, B, true)) == Two(Pending, Idle)
    ensures Step(Two(Pending, Idle), Claim(2)) == Two(Building, Claimed(2))
  {
  }

  lemma SecondBegins()
    ensures Step(Two(Building, Claimed(2)), Begin([1])) == Two(Building, Clearing(2, [1]))
  {
    var st := Two(Building, Claimed(2)).store;
    assert ReadyOthers(st, 2) == {1};
    assert (set i | i in [1]) == {1};
  }

  const FIRST_STAMP := Stamp(Inputs(B, 0), Inputs(A, 0))

  lemma SecondClears()
    ensures Step(Two(Building, Clearing(2, [1])), Clear({})) == Two(Building, Pairing(2, B, [1], None))
    ensures Step(Two(Building, Pairing(2, B, [1], None)), StartPair(Refs({REF})))
            == Two(Building, Writing(2, B, [1], A, false, FIRST_STAMP, {REF}))
  {
    assert Touching(Two(Building, Clearing(2, [1])).store, 2) == {};
  }

  lemma SecondWrites()
    ensures Step(Two(Building, Writing(2, B, [1], A, false, FIRST_STAMP, {REF})), Write({REF}, {})) == MidBuild(map[], [1], Some(A))
  {
    var st := Two(Building, Idle).store;
    assert Upsert(st, 2, 1, {REF}, FIRST_STAMP).mappings == Written();
  }

  lemma SecondWritten()
    ensures Run(Alone(ROW_A, Idle), SecondBuild()) == MidBuild(map[], [1], Some(A))
  {
    SecondStarts();
    SecondBegins();
    SecondClears();
    SecondWrites();
    ChainRuns([Alone(ROW_A, Idle), Two(Pending, Idle), Two(Building, Claimed(2)), Two(Building, Clearing(2, [1])),
               Two(Building, Pairing(2, B, [1], None)), Two(Building, Writing(2, B, [1], A, false, FIRST_STAMP, {REF})),
               MidBuild(map[], [1], Some(A))], SecondBuild());
  }

  lemma EndChanges()
    ensures Step(MidBuild(map[], [1], Some(A)), ChainChanged({B})) == MidBuild(map[B := 1], [1], Some(A))
    ensures Step(MidBuild(map[B := 1], [1], Some(A)), StartPair(Unbuildable)) == MidBuild(map[B := 1], [], None)
  {
    assert [1][1..] == [];
    assert Bump(MidBuild(map[], [1], Some(A)), {B}).versions == map[B := 1];
  }

  lemma EndFinishes()
    ensures Step(MidBuild(map[B := 1], [], None), StartPair(SkipBoth)) == Ended()
  {
  }

  lemma EndSweeps()
    ensures Step(Ended(), Sweep({})) == Ended()
  {
    var w := Ended();
    var current := map p | p in PairsOf(w.store) && p !in {} :: Current(w, p);
    assert w.store.rows[1].pair in PairsOf(w.store) && w.store.rows[2].pair in PairsOf(w.store);
    assert StaleRows(w.store, current) == {};
    assert Requeued(w.store.rows, {}) == w.store.rows;
  }

  lemma EndsStale()
    ensures Run(MidBuild(map[], [1], Some(A)), Ending()) == Ended()
  {
    EndChanges();
    EndFinishes();
    EndSweeps();
    ChainRuns([MidBuild(map[], [1], Some(A)), MidBuild(map[B := 1], [1], Some(A)), MidBuild(map[B := 1], [], None), Ended(), Ended()],
              Ending());
  }

  /**
   * The fingerprint is taken when a build finishes, so it covers a change the rows written before it do
   * not: after the sweep both indexes match their fingerprints, and the payload between them is stale.
   */
  lemma UnseenChangeDuringBuildIsServed()
    ensures var w := Run(Fresh(), FirstBuild() + SecondBuild() + Ending());
            && Served(w, 2, 1, REF) && Matches(w, 1) && Matches(w, 2)
            && !UpToDate(w, 2, 1, REF)
    ensures var es := FirstBuild() + SecondBuild() + Ending();
            && OriginOf(es, 2, 1, REF).Some?
            && var o := OriginOf(es, 2, 1, REF).value; UnseenBetween(es, o.builder, o.since, FinishedAt(es, o.builder))
  {
    var es := FirstBuild() + SecondBuild() + Ending();
    RunAppend(Fresh(), FirstBuild() + SecondBuild(), Ending());
    RunAppend(Fresh(), FirstBuild(), SecondBuild());
    FirstBuilt();
    SecondWritten();
    EndsStale();
    MatchingStaleIff(es, 2, 1, REF);
  }
}
