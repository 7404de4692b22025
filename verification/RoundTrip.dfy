/** Resolving a whole verse through a chain of equal-length zip rows and back down the same chain. */
module RoundTrip {
  import opened Options
  import opened Coordinates
  import opened RelationAlgebra
  import opened Cover
  import opened VerseOrder
  import opened Walking
  import opened Hulls
  import opened HullResults
  import opened RangeHulls
  import opened Resolving

  predicate Apart(r: RefRange, q: RefRange) {
    r.book != q.book || r.chapter != q.chapter || r.Last() < q.first || q.Last() < r.first
  }

  predicate ZipRow(row: Row) {
    ZipClass(row.relation) && row.base.Some? && row.source.Length() == row.base.value.Length()
  }

  /** Apart from part rows, a hop of equal-length zip rows with disjoint sources and disjoint bases. */
  ghost predicate ZipHop(hop: Hop) {
    && (forall row :: row in hop && row.relation != Partial ==> ZipRow(row))
    && (forall i, j :: 0 <= i < j < |hop| && hop[i].relation != Partial && hop[j].relation != Partial ==>
          Apart(hop[i].source, hop[j].source) && Apart(hop[i].base.value, hop[j].base.value))
  }

  ghost predicate ZipChain(hops: seq<Hop>) {
    forall hop :: hop in hops ==> ZipHop(hop)
  }

  /** At most one row applies to a whole verse. */
  lemma OneRowApplies(hop: Hop, v: VerseId, upward: bool, row: Row)
    requires ZipHop(hop) && v.part == None && row in hop && Applies(row, v, upward)
    ensures Covering(hop, v, upward) == Some(row)
  {
    CoveringIsNarrowest(hop, v, upward);
    var c := Covering(hop, v, upward).value;
    var i :| 0 <= i < |hop| && hop[i] == row;
    var j :| 0 <= j < |hop| && hop[j] == c;
    assert i < j || j < i || row == c;
  }

  /** The verse at the same index of another range. */
  function Shifted(v: VerseId, from: RefRange, to: RefRange): VerseId
    requires Covers(from, v)
  {
    VerseId(to.book, to.chapter, to.first + IndexInRange(from, v), None)
  }

  /** Where one hop takes a whole verse. */
  function Cross(v: VerseId, hop: Hop, upward: bool): VerseId {
    var c := Covering(hop, v, upward);
    CoveringIsNarrowest(hop, v, upward);
    if c.None? || c.value.base.None? then v
    else if upward then Shifted(v, c.value.source, c.value.base.value)
    else Shifted(v, c.value.base.value, c.value.source)
  }

  lemma CrossProjects(v: VerseId, hop: Hop, upward: bool)
    requires ZipHop(hop) && v.part == None
    ensures Cross(v, hop, upward).part == None
    ensures exists r :: ZipClass(r) && ProjectVerse(v, hop, upward) == Projection([Cross(v, hop, upward)], r, false, [])
  {
    CoveringIsNarrowest(hop, v, upward);
    var c := Covering(hop, v, upward);
    if c.None? {
      assert ZipClass(OneToOne);
    } else {
      assert ZipRow(c.value);
      assert ZipClass(c.value.relation);
    }
  }

  /** Covered by a source range, or outside every base range. */
  ghost predicate Returns(v: VerseId, hop: Hop) {
    || (exists row :: row in hop && Applies(row, v, true))
    || (forall row :: row in hop ==> !Applies(row, v, false))
  }

  /** One hop up and down gives a whole verse back in exactly these cases. */
  lemma HopReturnsIff(v: VerseId, hop: Hop)
    requires ZipHop(hop) && v.part == None
    ensures Cross(Cross(v, hop, true), hop, false) == v <==> Returns(v, hop)
  {
    CoveringIsNarrowest(hop, v, true);
    CoveringIsNarrowest(hop, v, false);
    var up := Covering(hop, v, true);
    if up.Some? {
      var row := up.value;
      assert ZipRow(row);
      var w := Cross(v, hop, true);
      assert Covers(row.base.value, w);
      OneRowApplies(hop, w, false, row);
    } else if Covering(hop, v, false).Some? {
      var row := Covering(hop, v, false).value;
      assert ZipRow(row);
      assert !Applies(row, v, true);
      assert Covers(row.source, Cross(v, hop, false));
    }
  }

  // ----- chains -----

  function CrossChain(v: VerseId, hops: seq<Hop>, upward: bool): VerseId {
    if hops == [] then v
    else Cross(CrossChain(v, hops[..|hops| - 1], upward), hops[|hops| - 1], upward)
  }

  lemma ZipCompose(r: Relation, q: Relation)
    requires ZipClass(r) && ZipClass(q)
    ensures ZipClass(Compose(r, q))
  {
  }

  lemma CrossSingle(v: VerseId, hop: Hop, upward: bool, relation: Relation)
    requires ZipHop(hop) && v.part == None && ZipClass(relation)
    ensures var c := CrossVerses([v], hop, upward, relation);
            c.verses == [Cross(v, hop, upward)] && ZipClass(c.relation) && !c.excluded && c.siblings == []
  {
    CrossProjects(v, hop, upward);
    var p := ProjectVerse(v, hop, upward);
    ZipCompose(relation, p.relation);
    assert [v][..0] == [];
    assert CrossVerses([], hop, upward, relation) == Walk([], relation, false, []);
  }

  lemma SortSingle(v: VerseId)
    ensures SortVerses([v]) == [v]
  {
    assert [v][..0] == [];
  }

  /** A whole verse walks a zip chain alone, under a zip relation. */
  lemma {:induction false} WalkSingle(v: VerseId, hops: seq<Hop>, upward: bool)
    requires ZipChain(hops) && v.part == None
    ensures CrossChain(v, hops, upward).part == None
    ensures var w := WalkHops([v], hops, upward);
            w.verses == [CrossChain(v, hops, upward)] && ZipClass(w.relation) && !w.excluded && w.siblings == []
  {
    if hops != [] {
      var init, hop := hops[..|hops| - 1], hops[|hops| - 1];
      assert hop in hops && forall h :: h in init ==> h in hops;
      WalkSingle(v, init, upward);
      var u := CrossChain(v, init, upward);
      CrossProjects(u, hop, upward);
      CrossSingle(u, hop, upward, WalkHops([v], init, upward).relation);
      SortSingle(Cross(u, hop, upward));
    }
  }

  lemma {:induction false} CrossChainFront(v: VerseId, hop: Hop, rest: seq<Hop>, upward: bool)
    ensures CrossChain(v, [hop] + rest, upward) == CrossChain(Cross(v, hop, upward), rest, upward)
  {
    var hops := [hop] + rest;
    if rest == [] {
      assert hops[..0] == [] && CrossChain(v, [], upward) == v;
    } else {
      CrossChainFront(v, hop, rest[..|rest| - 1], upward);
      assert hops[..|hops| - 1] == [hop] + rest[..|rest| - 1];
    }
  }

  /** The climb meets only hops that give its current verse back. */
  ghost predicate ReturnsAll(v: VerseId, hops: seq<Hop>) {
    forall n :: 0 <= n < |hops| ==> Returns(CrossChain(v, hops[..n], true), hops[n])
  }

  lemma ReturnsInit(v: VerseId, hops: seq<Hop>)
    requires ReturnsAll(v, hops) && hops != []
    ensures ReturnsAll(v, hops[..|hops| - 1]) && Returns(CrossChain(v, hops[..|hops| - 1], true), hops[|hops| - 1])
  {
    var init := hops[..|hops| - 1];
    forall k | 0 <= k < |init| ensures Returns(CrossChain(v, init[..k], true), init[k]) {
      assert init[..k] == hops[..k];
    }
  }

  lemma {:induction false} ClimbAndFall(v: VerseId, hops: seq<Hop>)
    requires ZipChain(hops) && v.part == None && ReturnsAll(v, hops)
    ensures CrossChain(CrossChain(v, hops, true), Reversed(hops), false) == v
  {
    if hops != [] {
      var n := |hops| - 1;
      var init, hop := hops[..n], hops[n];
      assert hop in hops && forall h :: h in init ==> h in hops;
      ReturnsInit(v, hops);
      ClimbAndFall(v, init);
      WalkSingle(v, init, true);
      var u := CrossChain(v, init, true);
      HopReturnsIff(u, hop);
      CrossChainFront(CrossChain(v, hops, true), hop, Reversed(init), false);
    }
  }

  // ----- the assembled result -----

  lemma {:induction false} NoHopTriggers(vs: seq<VerseId>, hop: Hop, side: TriggerSide, n: nat)
    requires ZipHop(hop)
    ensures HopTriggers(vs, hop, side, n) == []
  {
    if vs != [] {
      NoHopTriggers(vs[..|vs| - 1], hop, side, n);
      CoveringIsNarrowest(hop, vs[|vs| - 1], side == OnSource);
    }
  }

  lemma {:induction false} NoSideTriggers(vs: seq<VerseId>, hops: seq<Hop>, side: TriggerSide)
    requires ZipChain(hops)
    ensures SideTriggers(vs, hops, side) == []
  {
    if hops != [] {
      var n := |hops| - 1;
      assert hops[n] in hops && forall h :: h in hops[..n] ==> h in hops;
      NoSideTriggers(vs, hops[..n], side);
      NoHopTriggers(WalkHops(vs, hops[..n], side == OnSource).verses, hops[n], side, n);
    }
  }

  lemma ReversedZip(hops: seq<Hop>)
    requires ZipChain(hops)
    ensures ZipChain(Reversed(hops))
  {
  }

  lemma StraightStep(v: VerseId, route: Route, up: Walk, down: Walk)
    requires up == Ascend(v, route.src) && down == WalkHops(up.verses, route.tgt, false)
    requires !up.excluded && !down.excluded && up.siblings == [] && ZipClass(up.relation) && ZipClass(down.relation)
    ensures StepOf(v, route) == Straight(Compose(up.relation, down.relation), down.verses)
  {
  }

  lemma NoSiblings(v: VerseId, route: Route)
    requires Ascend(v, route.src).siblings == []
    ensures SiblingsOver([v], route) == []
  {
    assert [v][..0] == [];
    assert SiblingsOver([], route) == [];
  }

  lemma StepSingle(v: VerseId, route: Route)
    requires ZipChain(route.src) && ZipChain(route.tgt) && v.part == None
    ensures var w := CrossChain(CrossChain(v, route.src, true), route.tgt, false);
            exists r :: ZipClass(r) && StepOf(v, route) == Straight(r, [w])
    ensures SiblingsOver([v], route) == []
  {
    WalkSingle(v, route.src, true);
    var u := CrossChain(v, route.src, true);
    WalkSingle(u, route.tgt, false);
    var up, down := Ascend(v, route.src), WalkHops([u], route.tgt, false);
    ZipCompose(up.relation, down.relation);
    StraightStep(v, route, up, down);
    NoSiblings(v, route);
  }

  lemma SingleTargets(v: VerseId, route: Route, w: VerseId, r: Relation)
    requires StepOf(v, route) == Straight(r, [w])
    ensures StraightTargets([v], route) == [w]
  {
    assert [v][..0] == [];
    assert StraightTargets([], route) == [];
  }

  lemma SingleRelations(v: VerseId, route: Route, r: Relation)
    requires StepRelation(StepOf(v, route)) == r
    ensures StepRelations([v], route) == {r}
  {
    assert v in [v];
  }

  lemma SingleOutcome(v: VerseId, w: VerseId, r: Relation)
    requires r != Exclude
    ensures StraightOutcome([v], [w], {r}, r) == Some(PlainResult([v], [w], r))
  {
    assert r in {r} && r !in {Exclude};
  }

  lemma AtomicSingle(v: VerseId, route: Route, w: VerseId, r: Relation)
    requires StepOf(v, route) == Straight(r, [w]) && r != Exclude && SiblingsOver([v], route) == []
    ensures AtomicOutcome([v], route) == Some(PlainResult([v], [w], r))
  {
    SingleTargets(v, route, w, r);
    SingleRelations(v, route, r);
    SortSingle(v);
    SortSingle(w);
    assert [v] + [] == [v];
    SingleOutcome(v, w, r);
  }

  /** Over zip chains a whole verse resolves to one verse, and only a changed coordinate keeps a relation other than `one_to_one`. */
  lemma ZipResolve(v: VerseId, route: Route, r: Resolution)
    requires ZipChain(route.src) && ZipChain(route.tgt) && v.part == None
    requires Assembled([v], route, r)
    ensures var w := CrossChain(CrossChain(v, route.src, true), route.tgt, false);
            && r.relation.Plain? && ZipClass(r.relation.relation) && r == PlainResult([v], [w], r.relation.relation)
            && (v == w ==> r.relation == Plain(OneToOne))
  {
    NoSideTriggers([v], route.src, OnSource);
    NoSideTriggers(WalkHops([v], route.src, true).verses, route.tgt, OnTarget);
    assert TriggerOf([v], route) == None;
    StepSingle(v, route);
    var w := CrossChain(CrossChain(v, route.src, true), route.tgt, false);
    var q :| ZipClass(q) && StepOf(v, route) == Straight(q, [w]);
    AtomicSingle(v, route, w, q);
    ShareBcvIff(v, w);
  }

  /** Through a zip chain of any length and back, a whole verse returns to itself as `one_to_one`. */
  lemma ChainRoundTrip(v: VerseId, hops: seq<Hop>, r: Resolution)
    requires ZipChain(hops) && v.part == None && ReturnsAll(v, hops)
    requires Assembled([v], Route(hops, Reversed(hops)), r)
    ensures r == PlainResult([v], [v], OneToOne)
  {
    ReversedZip(hops);
    ClimbAndFall(v, hops);
    ZipResolve(v, Route(hops, Reversed(hops)), r);
  }

  /** Over a single hop the condition is exact. */
  lemma HopRoundTripIff(v: VerseId, hop: Hop, r: Resolution)
    requires ZipHop(hop) && v.part == None
    requires Assembled([v], Route([hop], Reversed([hop])), r)
    ensures r == PlainResult([v], [v], OneToOne) <==> Returns(v, hop)
  {
    var hops := [hop];
    assert hops[..0] == [] && CrossChain(v, [], true) == v;
    assert Reversed(hops) == [hop] + Reversed([]);
    ReversedZip(hops);
    ZipResolve(v, Route(hops, Reversed(hops)), r);
    HopReturnsIff(v, hop);
    var u := Cross(v, hop, true);
    CrossChainFront(u, hop, [], false);
  }

  // ----- longer chains -----

  lemma ClimbTwice(hop: Hop, v: VerseId, upward: bool)
    ensures CrossChain(v, [hop, hop][..1], upward) == Cross(v, hop, upward)
    ensures CrossChain(v, [hop, hop], upward) == Cross(Cross(v, hop, upward), hop, upward)
    ensures Reversed([hop, hop]) == [hop, hop]
  {
    var hops := [hop, hop];
    assert hops[..1] == [hop] && [hop][..0] == [];
    assert CrossChain(v, [], upward) == v;
    assert CrossChain(v, [hop], upward) == Cross(v, hop, upward);
    assert Reversed([]) == [] && Reversed([hop]) == [hop];
  }

  /** Crossing twice a hop that moves `v` to `u` returns `v`, though the second crossing alone does not return `u`. */
  lemma TwiceThrough(hop: Hop, v: VerseId, u: VerseId)
    requires ZipHop(hop) && v.part == None && u.part == None && u != v
    requires Cross(v, hop, true) == u && Cross(u, hop, true) == u
    requires Cross(u, hop, false) == v && Cross(v, hop, false) == v
    ensures ZipChain([hop, hop]) && !ReturnsAll(v, [hop, hop])
    ensures CrossChain(CrossChain(v, [hop, hop], true), Reversed([hop, hop]), false) == v
  {
    ClimbTwice(hop, v, true);
    ClimbTwice(hop, u, false);
    HopReturnsIff(u, hop);
    var hops := [hop, hop];
    assert !Returns(CrossChain(v, hops[..1], true), hops[1]);
  }

  /** A hop of one row that moves a single verse to another one. */
  predicate Moves(hop: Hop, v: VerseId, u: VerseId) {
    && |hop| == 1 && ZipRow(hop[0]) && u != v && v.part == None && u.part == None
    && hop[0].source == RefRange(v.book, v.chapter, v.verse, 0)
    && hop[0].base.value == RefRange(u.book, u.chapter, u.verse, 0)
  }

  lemma MovesOnly(hop: Hop, v: VerseId, u: VerseId, x: VerseId, upward: bool)
    requires Moves(hop, v, u) && (x == v || x == u)
    ensures Cross(x, hop, upward) == if upward then u else v
  {
    CoveringIsNarrowest(hop, x, upward);
    assert hop[0] in hop && forall row :: row in hop ==> row == hop[0];
  }

  /** Back on its own coordinate although some hop on the way does not return what it carries. */
  ghost predicate ReturnsAnyway(hops: seq<Hop>, v: VerseId) {
    && ZipChain(hops) && v.part == None && !ReturnsAll(v, hops)
    && CrossChain(CrossChain(v, hops, true), Reversed(hops), false) == v
  }

  /** Over several hops the per-hop condition is not needed: crossing one moving hop twice brings its verse back all the same. */
  lemma ReturnsAllNotNecessary(hop: Hop, v: VerseId, u: VerseId)
    requires Moves(hop, v, u)
    ensures ReturnsAnyway([hop, hop], v)
  {
    MovesOnly(hop, v, u, v, true);
    MovesOnly(hop, v, u, u, true);
    MovesOnly(hop, v, u, v, false);
    MovesOnly(hop, v, u, u, false);
    TwiceThrough(hop, v, u);
  }
}
