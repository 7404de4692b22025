/** The many-to-many hull: everything reachable from the query under the four neighbour functions. */
module Hulls {
  import opened Options
  import opened Coordinates
  import opened RelationAlgebra
  import opened Cover
  import opened Walking

  datatype HullNode = Source(verse: VerseId) | Pivot(verse: VerseId) | Target(verse: VerseId)

  /** Hops climbing from the source scheme to the shared ancestor, and descending from it to the target scheme. */
  datatype Route = Route(src: seq<Hop>, tgt: seq<Hop>)

  function Sources(vs: set<VerseId>): set<HullNode> {
    set v | v in vs :: Source(v)
  }

  function Pivots(vs: set<VerseId>): set<HullNode> {
    set v | v in vs :: Pivot(v)
  }

  function Targets(vs: set<VerseId>): set<HullNode> {
    set v | v in vs :: Target(v)
  }

  function Neighbours(n: HullNode, route: Route): set<HullNode> {
    match n
    case Source(v) => Pivots(UpSet(v, route.src))
    case Pivot(v) => Sources(SrcOfPivot(v, route.src)) + Targets(DownSet(v, route.tgt))
    case Target(v) => Pivots(PivOfTarget(v, route.tgt))
  }

  // ----- reachability -----

  ghost predicate Trail(path: seq<HullNode>, route: Route) {
    path != [] && forall i, j :: 0 <= i && j == i + 1 && j < |path| ==> path[j] in Neighbours(path[i], route)
  }

  ghost predicate Reachable(seeds: set<HullNode>, n: HullNode, route: Route) {
    exists path :: Trail(path, route) && path[0] in seeds && path[|path| - 1] == n
  }

  lemma SeedReachable(seeds: set<HullNode>, n: HullNode, route: Route)
    requires n in seeds
    ensures Reachable(seeds, n, route)
  {
    assert Trail([n], route);
  }

  lemma TrailAppend(path: seq<HullNode>, m: HullNode, route: Route)
    requires Trail(path, route) && m in Neighbours(path[|path| - 1], route)
    ensures Trail(path + [m], route)
  {
    var longer := path + [m];
    forall i, j | 0 <= i && j == i + 1 && j < |longer| ensures longer[j] in Neighbours(longer[i], route) {
      if j < |path| {
        InnerStep(path, m, route, i, j);
      } else {
        assert i == |path| - 1 && longer[i] == path[|path| - 1] && longer[j] == m;
      }
    }
  }

  lemma InnerStep(path: seq<HullNode>, m: HullNode, route: Route, i: nat, j: nat)
    requires Trail(path, route) && j == i + 1 && j < |path|
    ensures (path + [m])[j] in Neighbours((path + [m])[i], route)
  {
    assert (path + [m])[j] == path[j] && (path + [m])[i] == path[i];
  }

  lemma StepReachable(seeds: set<HullNode>, n: HullNode, m: HullNode, route: Route)
    requires Reachable(seeds, n, route) && m in Neighbours(n, route)
    ensures Reachable(seeds, m, route)
  {
    var path :| Trail(path, route) && path[0] in seeds && path[|path| - 1] == n;
    TrailAppend(path, m, route);
    assert (path + [m])[0] == path[0] && (path + [m])[|path + [m]| - 1] == m;
  }

  ghost predicate Closed(s: set<HullNode>, route: Route) {
    forall n :: n in s ==> Neighbours(n, route) <= s
  }

  lemma TrailInit(path: seq<HullNode>, route: Route)
    requires Trail(path, route) && |path| > 1
    ensures Trail(path[..|path| - 1], route) && path[|path| - 1] in Neighbours(path[|path| - 2], route)
  {
    var init := path[..|path| - 1];
    forall i, j | 0 <= i && j == i + 1 && j < |init| ensures init[j] in Neighbours(init[i], route) {
      assert path[j] in Neighbours(path[i], route);
    }
    var k := |path| - 2;
    assert path[k + 1] in Neighbours(path[k], route);
  }

  lemma {:induction false} TrailStaysIn(path: seq<HullNode>, s: set<HullNode>, route: Route)
    requires Trail(path, route) && path[0] in s && Closed(s, route)
    ensures path[|path| - 1] in s
  {
    if |path| > 1 {
      TrailInit(path, route);
      TrailStaysIn(path[..|path| - 1], s, route);
    }
  }

  /** The reachable nodes are the least set that holds the seeds and is closed under the neighbour functions. */
  lemma ReachableIsLeast(seeds: set<HullNode>, hull: set<HullNode>, route: Route)
    requires forall n :: n in hull <==> Reachable(seeds, n, route)
    ensures seeds <= hull && Closed(hull, route)
    ensures forall s :: seeds <= s && Closed(s, route) ==> hull <= s
  {
    forall n | n in seeds ensures n in hull {
      SeedReachable(seeds, n, route);
    }
    forall n, m | n in hull && m in Neighbours(n, route) ensures m in hull {
      StepReachable(seeds, n, m, route);
    }
    forall s | seeds <= s && Closed(s, route) ensures hull <= s {
      forall n | n in hull ensures n in s {
        var path :| Trail(path, route) && path[0] in seeds && path[|path| - 1] == n;
        TrailStaysIn(path, s, route);
      }
    }
  }

  // ----- the finite universe -----

  function At(v: VerseId): VerseId {
    v.(part := None)
  }

  function RowVerses(row: Row): seq<VerseId> {
    Expand(row.source) + (if row.base.Some? then Expand(row.base.value) else [])
  }

  /** Every coordinate some mapping range names. */
  ghost function Spots(hops: seq<Hop>): set<VerseId> {
    set hop, row, v | hop in hops && row in hop && v in RowVerses(row) :: v
  }

  lemma SpotsReversed(hops: seq<Hop>)
    ensures Spots(Reversed(hops)) == Spots(hops)
  {
  }

  lemma ExpandPartLands(r: RefRange, part: Option<string>, w: VerseId)
    requires w in ExpandPart(r, part)
    ensures Covers(r, w)
  {
    var i :| 0 <= i < |ExpandPart(r, part)| && ExpandPart(r, part)[i] == w;
    assert w == VerseId(r.book, r.chapter, r.first + i, part);
  }

  lemma OntoLands(v: VerseId, row: Row, upward: bool, relation: Relation, source: RefRange, base: RefRange, w: VerseId)
    requires Covers(source, v) && w in ProjectOnto(v, row, upward, relation, source, base).verses
    ensures Covers(base, w)
  {
    if relation == Split {
      ExpandPartLands(base, v.part, w);
    }
  }

  /** A projected verse is the verse itself or lies in a range of some row. */
  lemma ProjectionLands(v: VerseId, rows: seq<Row>, upward: bool, w: VerseId)
    requires w in ProjectVerse(v, rows, upward).verses
    ensures w == v || exists row :: row in rows && At(w) in RowVerses(row)
  {
    CoveringIsNarrowest(rows, v, upward);
    var c := Covering(rows, v, upward);
    if c.Some? {
      var row := c.value;
      var relation := if upward then row.relation else Invert(row.relation);
      var source := CoverSide(row, upward).value;
      var base := if upward then row.base else Some(row.source);
      var range := if base.Some? then base.value else RefRange(source.book, source.chapter, source.first, 0);
      OntoLands(v, row, upward, relation, source, range, w);
      ExpandMembers(row.source, At(w));
      if row.base.Some? {
        ExpandMembers(row.base.value, At(w));
      }
    }
  }

  /** All verses sit on known coordinates. */
  ghost predicate Grounded(vs: seq<VerseId>, spots: set<VerseId>) {
    forall v :: v in vs ==> At(v) in spots
  }

  lemma {:induction false} CrossGrounded(vs: seq<VerseId>, hop: Hop, upward: bool, relation: Relation, spots: set<VerseId>)
    requires Grounded(vs, spots) && forall row, v :: row in hop && v in RowVerses(row) ==> v in spots
    ensures Grounded(CrossVerses(vs, hop, upward, relation).verses, spots)
  {
    if vs != [] {
      var init, last := vs[..|vs| - 1], vs[|vs| - 1];
      assert last in vs && forall v :: v in init ==> v in vs;
      CrossGrounded(init, hop, upward, relation, spots);
      var p := ProjectVerse(last, hop, upward);
      forall w | w in p.verses ensures At(w) in spots {
        ProjectionLands(last, hop, upward, w);
      }
    }
  }

  lemma {:induction false} WalkGrounded(vs: seq<VerseId>, hops: seq<Hop>, upward: bool, spots: set<VerseId>)
    requires Grounded(vs, spots) && Spots(hops) <= spots
    ensures Grounded(WalkHops(vs, hops, upward).verses, spots)
  {
    if hops != [] {
      var init, hop := hops[..|hops| - 1], hops[|hops| - 1];
      assert hop in hops && forall h :: h in init ==> h in hops;
      assert Spots(init) <= Spots(hops);
      WalkGrounded(vs, init, upward, spots);
      forall row, v | row in hop && v in RowVerses(row) ensures v in spots {
        assert v in Spots(hops);
      }
      var w := WalkHops(vs, init, upward);
      CrossGrounded(w.verses, hop, upward, w.relation, spots);
    }
  }

  /** Coordinates and parts a hull can touch. */
  datatype Ground = Ground(spots: set<VerseId>, parts: set<Option<string>>)

  ghost predicate On(g: Ground, v: VerseId) {
    At(v) in g.spots && v.part in g.parts
  }

  ghost predicate Carries(g: Ground, route: Route) {
    Spots(route.src) <= g.spots && Spots(route.tgt) <= g.spots
  }

  lemma WalkOn(g: Ground, v: VerseId, hops: seq<Hop>, upward: bool)
    requires On(g, v) && Spots(hops) <= g.spots
    ensures forall w :: w in Reached(WalkHops([v], hops, upward)) ==> On(g, w)
  {
    WalkShape([v], hops, upward, v.part);
    WalkGrounded([v], hops, upward, g.spots);
  }

  lemma NeighboursOn(g: Ground, n: HullNode, route: Route)
    requires On(g, n.verse) && Carries(g, route)
    ensures forall m :: m in Neighbours(n, route) ==> On(g, m.verse)
  {
    SpotsReversed(route.src);
    SpotsReversed(route.tgt);
    match n
    case Source(v) => WalkOn(g, v, route.src, true);
    case Pivot(v) =>
      WalkOn(g, v, Reversed(route.src), false);
      WalkOn(g, v, route.tgt, false);
    case Target(v) => WalkOn(g, v, Reversed(route.tgt), true);
  }

  /** The nodes of a ground: finitely many. */
  ghost function Universe(g: Ground): set<HullNode> {
    var vs := set s, p | s in g.spots && p in g.parts :: s.(part := p);
    Sources(vs) + Pivots(vs) + Targets(vs)
  }

  lemma OnInUniverse(g: Ground, n: HullNode)
    requires On(g, n.verse)
    ensures n in Universe(g)
  {
    assert n.verse == At(n.verse).(part := n.verse.part);
  }

  // ----- the worklist -----

  /** Push the nodes of a set in whatever order iteration yields them. */
  method PushAll(worklist: seq<HullNode>, nodes: set<HullNode>) returns (longer: seq<HullNode>)
    ensures forall n :: n in longer <==> n in worklist || n in nodes
  {
    longer := worklist;
    var rest := nodes;
    while rest != {}
      invariant rest <= nodes
      invariant forall n :: n in longer <==> n in worklist || n in nodes - rest
      decreases rest
    {
      var n: HullNode :| n in rest;
      rest := rest - {n};
      longer := longer + [n];
    }
  }

  /** Seeds and neighbours are seen or waiting, and everything seen or waiting is reachable. */
  ghost predicate Exploring(seeds: set<HullNode>, seen: set<HullNode>, worklist: seq<HullNode>, route: Route, g: Ground) {
    && (forall n :: n in seeds ==> n in seen || n in worklist)
    && (forall n, m :: n in seen && m in Neighbours(n, route) ==> m in seen || m in worklist)
    && (forall n :: n in seen || n in worklist ==> Reachable(seeds, n, route) && On(g, n.verse))
  }

  lemma SkipKeeps(seeds: set<HullNode>, seen: set<HullNode>, worklist: seq<HullNode>, route: Route, g: Ground)
    requires worklist != [] && Exploring(seeds, seen, worklist, route, g) && worklist[|worklist| - 1] in seen
    ensures Exploring(seeds, seen, worklist[..|worklist| - 1], route, g)
  {
    assert worklist == worklist[..|worklist| - 1] + [worklist[|worklist| - 1]];
  }

  lemma VisitKeeps(seeds: set<HullNode>, seen: set<HullNode>, worklist: seq<HullNode>, longer: seq<HullNode>, route: Route, g: Ground)
    requires worklist != [] && Exploring(seeds, seen, worklist, route, g) && Carries(g, route)
    requires var node := worklist[|worklist| - 1];
             forall n :: n in longer <==> n in worklist[..|worklist| - 1] || n in Neighbours(node, route)
    ensures Exploring(seeds, seen + {worklist[|worklist| - 1]}, longer, route, g)
  {
    var node := worklist[|worklist| - 1];
    var seen' := seen + {node};
    assert worklist == worklist[..|worklist| - 1] + [node];
    NeighboursOn(g, node, route);
    forall n, m | n in seen' && m in Neighbours(n, route) ensures m in seen' || m in longer {
      if n != node {
        assert m in seen || m in worklist;
      }
    }
    forall n | n in seen' || n in longer ensures Reachable(seeds, n, route) && On(g, n.verse) {
      if n in Neighbours(node, route) {
        StepReachable(seeds, node, n, route);
      } else {
        assert n in seen || n in worklist;
      }
    }
  }

  lemma ExploredIsReachable(seeds: set<HullNode>, seen: set<HullNode>, route: Route, g: Ground)
    requires Exploring(seeds, seen, [], route, g)
    ensures forall n :: n in seen <==> Reachable(seeds, n, route)
  {
    forall n | Reachable(seeds, n, route) ensures n in seen {
      var path :| Trail(path, route) && path[0] in seeds && path[|path| - 1] == n;
      assert Closed(seen, route);
      TrailStaysIn(path, seen, route);
    }
  }

  ghost function GroundOf(members: seq<VerseId>, route: Route): Ground {
    Ground(Spots(route.src) + Spots(route.tgt) + (set v | v in members :: At(v)), set v | v in members :: v.part)
  }

  function SeedsOf(members: seq<VerseId>): set<HullNode> {
    set v | v in members :: Source(v)
  }

  /** The three sides hold exactly the reachable nodes. */
  ghost predicate HullOf(members: seq<VerseId>, route: Route, sources: set<VerseId>, pivots: set<VerseId>, targets: set<VerseId>) {
    && (forall v :: v in sources <==> Reachable(SeedsOf(members), Source(v), route))
    && (forall v :: v in pivots <==> Reachable(SeedsOf(members), Pivot(v), route))
    && (forall v :: v in targets <==> Reachable(SeedsOf(members), Target(v), route))
  }

  lemma UniverseShrinks(u: set<HullNode>, seen: set<HullNode>, node: HullNode)
    requires node in u && node !in seen
    ensures |u - (seen + {node})| < |u - seen|
  {
    assert u - (seen + {node}) == (u - seen) - {node};
  }

  /** Every seen node is filed under its side. */
  ghost predicate Filed(seen: set<HullNode>, sources: set<VerseId>, pivots: set<VerseId>, targets: set<VerseId>) {
    && (forall v :: Source(v) in seen <==> v in sources)
    && (forall v :: Pivot(v) in seen <==> v in pivots)
    && (forall v :: Target(v) in seen <==> v in targets)
  }

  /** File one node and push its neighbours. */
  method Visit(node: HullNode, rest: seq<HullNode>, route: Route, ghost seen: set<HullNode>,
               sources: set<VerseId>, pivots: set<VerseId>, targets: set<VerseId>)
    returns (longer: seq<HullNode>, sources': set<VerseId>, pivots': set<VerseId>, targets': set<VerseId>)
    requires Filed(seen, sources, pivots, targets)
    ensures Filed(seen + {node}, sources', pivots', targets')
    ensures forall n :: n in longer <==> n in rest || n in Neighbours(node, route)
  {
    sources', pivots', targets' := sources, pivots, targets;
    match node {
      case Source(v) =>
        sources' := sources + {v};
        longer := PushAll(rest, Pivots(UpSet(v, route.src)));
      case Pivot(v) =>
        pivots' := pivots + {v};
        longer := PushAll(rest, Sources(SrcOfPivot(v, route.src)));
        longer := PushAll(longer, Targets(DownSet(v, route.tgt)));
      case Target(v) =>
        targets' := targets + {v};
        longer := PushAll(rest, Pivots(PivOfTarget(v, route.tgt)));
    }
  }

  function Queue(members: seq<VerseId>): seq<HullNode> {
    seq(|members|, i requires 0 <= i < |members| => Source(members[i]))
  }

  lemma QueueExplores(members: seq<VerseId>, route: Route)
    ensures Exploring(SeedsOf(members), {}, Queue(members), route, GroundOf(members, route))
    ensures Carries(GroundOf(members, route), route)
  {
    var seeds, queue, g := SeedsOf(members), Queue(members), GroundOf(members, route);
    forall n | n in queue ensures Reachable(seeds, n, route) && On(g, n.verse) {
      assert n.verse in members;
      SeedReachable(seeds, n, route);
    }
    forall n | n in seeds ensures n in queue {
      var i :| 0 <= i < |members| && members[i] == n.verse;
      assert queue[i] == n;
    }
  }

  ghost predicate Closing(members: seq<VerseId>, route: Route, seen: set<HullNode>, worklist: seq<HullNode>) {
    Exploring(SeedsOf(members), seen, worklist, route, GroundOf(members, route))
  }

  ghost function Unseen(members: seq<VerseId>, route: Route, seen: set<HullNode>): nat {
    |Universe(GroundOf(members, route)) - seen|
  }

  lemma ClosingSkip(members: seq<VerseId>, route: Route, seen: set<HullNode>, worklist: seq<HullNode>)
    requires worklist != [] && Closing(members, route, seen, worklist) && worklist[|worklist| - 1] in seen
    ensures Closing(members, route, seen, worklist[..|worklist| - 1])
  {
    SkipKeeps(SeedsOf(members), seen, worklist, route, GroundOf(members, route));
  }

  lemma ClosingVisit(members: seq<VerseId>, route: Route, seen: set<HullNode>, worklist: seq<HullNode>, longer: seq<HullNode>)
    requires worklist != [] && Closing(members, route, seen, worklist) && worklist[|worklist| - 1] !in seen
    requires forall n :: n in longer <==>
               n in worklist[..|worklist| - 1] || n in Neighbours(worklist[|worklist| - 1], route)
    ensures Closing(members, route, seen + {worklist[|worklist| - 1]}, longer)
    ensures Unseen(members, route, seen + {worklist[|worklist| - 1]}) < Unseen(members, route, seen)
  {
    var g, node := GroundOf(members, route), worklist[|worklist| - 1];
    QueueExplores(members, route);
    VisitKeeps(SeedsOf(members), seen, worklist, longer, route, g);
    assert node in worklist;
    OnInUniverse(g, node);
    UniverseShrinks(Universe(g), seen, node);
  }

  lemma ClosedIsHull(members: seq<VerseId>, route: Route, seen: set<HullNode>,
                     sources: set<VerseId>, pivots: set<VerseId>, targets: set<VerseId>)
    requires Closing(members, route, seen, []) && Filed(seen, sources, pivots, targets)
    ensures HullOf(members, route, sources, pivots, targets)
  {
    ExploredIsReachable(SeedsOf(members), seen, route, GroundOf(members, route));
  }

  /** Close the query under the neighbour functions; terminates because the universe is finite. */
  method CloseHull(members: seq<VerseId>, route: Route)
    returns (sources: set<VerseId>, pivots: set<VerseId>, targets: set<VerseId>)
    ensures HullOf(members, route, sources, pivots, targets)
  {
    sources, pivots, targets := {}, {}, {};
    var seen: set<HullNode> := {};
    var worklist := Queue(members);
    QueueExplores(members, route);
    while worklist != []
      invariant Closing(members, route, seen, worklist)
      invariant Filed(seen, sources, pivots, targets)
      decreases Unseen(members, route, seen), |worklist|
    {
      var node, rest := worklist[|worklist| - 1], worklist[..|worklist| - 1];
      if node in seen {
        ClosingSkip(members, route, seen, worklist);
        worklist := rest;
        continue;
      }
      ghost var before := worklist;
      worklist, sources, pivots, targets := Visit(node, rest, route, seen, sources, pivots, targets);
      ClosingVisit(members, route, seen, before, worklist);
      seen := seen + {node};
    }
    ClosedIsHull(members, route, seen, sources, pivots, targets);
  }
}
