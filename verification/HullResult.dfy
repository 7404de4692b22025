/** What a hull resolves to: atomic shapes, or a complex result with one connector per source-target pair. */
module HullResults {
  import opened Options
  import opened Coordinates
  import opened RelationAlgebra
  import opened VerseOrder
  import opened Walking
  import opened Hulls

  /** A connector; `source` and `target` index the result's verse lists. */
  datatype HullEdge = HullEdge(source: nat, target: nat, relation: Relation)

  datatype Label = Plain(relation: Relation) | Complex | Range

  datatype Resolution = Resolution(
    sources: seq<VerseId>, targets: seq<VerseId>, relation: Label, edges: seq<HullEdge>,
    sourceRel: Option<Label>, targetRel: Option<Label>
  )

  function PlainResult(sources: seq<VerseId>, targets: seq<VerseId>, relation: Relation): Resolution {
    Resolution(sources, targets, Plain(relation), [], None, None)
  }

  // ----- legs -----

  datatype Legs = Legs(up: Relation, down: Relation)

  /** The two legs of a source-pivot-target path; a leg that does not arrive counts as identity. */
  function LegsOf(s: VerseId, p: VerseId, t: VerseId, route: Route): Legs {
    var up, down := Ascend(s, route.src), Descend(p, route.tgt);
    Legs(if up.excluded || p !in up.verses then OneToOne else up.relation,
         if down.excluded || t !in down.verses then OneToOne else down.relation)
  }

  function Joined(legs: Legs): Relation {
    Compose(legs.up, legs.down)
  }

  /** No connector is an exclusion. */
  lemma LegsNeverExclude(s: VerseId, p: VerseId, t: VerseId, route: Route)
    ensures Joined(LegsOf(s, p, t, route)) != Exclude
  {
    WalkShape([s], route.src, true, s.part);
    WalkShape([p], route.tgt, false, p.part);
    var legs := LegsOf(s, p, t, route);
    ComposeLaws(legs.up, legs.down);
  }

  // ----- connectors -----

  datatype Link = Link(source: nat, target: nat, legs: Legs)

  /** The two verse lists and the pivots a complex result connects. */
  datatype HullSides = HullSides(sources: seq<VerseId>, pivots: set<VerseId>, targets: seq<VerseId>)

  /** A pivot joins a source and a target. */
  predicate Joins(h: HullSides, route: Route, p: VerseId, i: nat, j: nat) {
    && i < |h.sources| && j < |h.targets|
    && h.sources[i] in SrcOfPivot(p, route.src) && h.targets[j] in DownSet(p, route.tgt)
  }

  ghost predicate Justified(h: HullSides, route: Route, link: Link) {
    exists p :: p in h.pivots && Joins(h, route, p, link.source, link.target)
                && link.legs == LegsOf(h.sources[link.source], p, h.targets[link.target], route)
  }

  /** Every link has a pivot behind it, and `seen` holds each linked pair once. */
  ghost predicate Linked(h: HullSides, route: Route, links: seq<Link>, seen: set<(nat, nat)>) {
    && (forall l :: l in links ==> Justified(h, route, l) && (l.source, l.target) in seen)
    && (forall i, j :: 0 <= i < j < |links| ==> (links[i].source, links[i].target) != (links[j].source, links[j].target))
    && (forall pair :: pair in seen ==> exists l :: l in links && (l.source, l.target) == pair)
  }

  method LinkPair(h: HullSides, route: Route, p: VerseId, i: nat, j: nat, links: seq<Link>, seen: set<(nat, nat)>)
    returns (links': seq<Link>, seen': set<(nat, nat)>)
    requires Linked(h, route, links, seen) && p in h.pivots && Joins(h, route, p, i, j)
    ensures Linked(h, route, links', seen') && seen' == seen + {(i, j)}
  {
    links', seen' := links, seen;
    if (i, j) !in seen {
      var link := Link(i, j, LegsOf(h.sources[i], p, h.targets[j], route));
      assert Justified(h, route, link);
      links', seen' := links + [link], seen + {(i, j)};
    }
  }

  /** Position of a listed verse. */
  function IndexOf(vs: seq<VerseId>, v: VerseId): (i: nat)
    requires v in vs
    ensures i < |vs| && vs[i] == v
  {
    if vs[0] == v then 0 else 1 + IndexOf(vs[1..], v)
  }

  lemma IndexUnique(vs: seq<VerseId>, i: nat)
    requires Ordered(vs) && i < |vs|
    ensures IndexOf(vs, vs[i]) == i
  {
    var j := IndexOf(vs, vs[i]);
    assert vs[j] == vs[i];
  }

  /** All targets of one pivot, for one source. */
  method LinkTargets(h: HullSides, route: Route, p: VerseId, i: nat, links: seq<Link>, seen: set<(nat, nat)>)
    returns (links': seq<Link>, seen': set<(nat, nat)>)
    requires Linked(h, route, links, seen) && p in h.pivots && Ordered(h.targets)
    requires i < |h.sources| && h.sources[i] in SrcOfPivot(p, route.src)
    ensures Linked(h, route, links', seen') && seen <= seen'
    ensures forall j: nat :: Joins(h, route, p, i, j) ==> (i, j) in seen'
  {
    links', seen' := links, seen;
    var rest := DownSet(p, route.tgt);
    while rest != {}
      invariant rest <= DownSet(p, route.tgt)
      invariant Linked(h, route, links', seen') && seen <= seen'
      invariant forall j: nat :: Joins(h, route, p, i, j) ==> (i, j) in seen' || h.targets[j] in rest
      decreases rest
    {
      var target :| target in rest;
      rest := rest - {target};
      if target !in h.targets {
        continue;
      }
      var j := IndexOf(h.targets, target);
      links', seen' := LinkPair(h, route, p, i, j, links', seen');
      forall k: nat | Joins(h, route, p, i, k) ensures (i, k) in seen' || h.targets[k] in rest {
        IndexUnique(h.targets, k);
      }
    }
  }

  /** All sources of one pivot. */
  method LinkSources(h: HullSides, route: Route, p: VerseId, links: seq<Link>, seen: set<(nat, nat)>)
    returns (links': seq<Link>, seen': set<(nat, nat)>)
    requires Linked(h, route, links, seen) && p in h.pivots && Ordered(h.sources) && Ordered(h.targets)
    ensures Linked(h, route, links', seen') && seen <= seen'
    ensures forall i: nat, j: nat :: Joins(h, route, p, i, j) ==> (i, j) in seen'
  {
    links', seen' := links, seen;
    var rest := SrcOfPivot(p, route.src);
    while rest != {}
      invariant rest <= SrcOfPivot(p, route.src)
      invariant Linked(h, route, links', seen') && seen <= seen'
      invariant forall i: nat, j: nat :: Joins(h, route, p, i, j) ==> (i, j) in seen' || h.sources[i] in rest
      decreases rest
    {
      var source :| source in rest;
      rest := rest - {source};
      if source !in h.sources {
        continue;
      }
      var i := IndexOf(h.sources, source);
      links', seen' := LinkTargets(h, route, p, i, links', seen');
      forall k: nat, j: nat | Joins(h, route, p, k, j) ensures (k, j) in seen' || h.sources[k] in rest {
        IndexUnique(h.sources, k);
      }
    }
  }

  /** Every pair some pivot joins is linked exactly once, with the legs of one such pivot. */
  ghost predicate AllLinked(h: HullSides, route: Route, links: seq<Link>) {
    exists seen ::
      && Linked(h, route, links, seen)
      && forall p, i: nat, j: nat :: p in h.pivots && Joins(h, route, p, i, j) ==> (i, j) in seen
  }

  method LinkPivots(h: HullSides, route: Route) returns (links: seq<Link>)
    requires Ordered(h.sources) && Ordered(h.targets)
    ensures AllLinked(h, route, links)
  {
    links := [];
    var seen: set<(nat, nat)> := {};
    var rest := h.pivots;
    while rest != {}
      invariant rest <= h.pivots
      invariant Linked(h, route, links, seen)
      invariant forall p, i: nat, j: nat :: p in h.pivots && Joins(h, route, p, i, j) ==> (i, j) in seen || p in rest
      decreases rest
    {
      var p :| p in rest;
      rest := rest - {p};
      links, seen := LinkSources(h, route, p, links, seen);
    }
  }

  function EdgesOf(links: seq<Link>): seq<HullEdge> {
    seq(|links|, k requires 0 <= k < |links| => HullEdge(links[k].source, links[k].target, Joined(links[k].legs)))
  }

  function UpsOf(links: seq<Link>): seq<Relation> {
    seq(|links|, k requires 0 <= k < |links| => links[k].legs.up)
  }

  function DownsOf(links: seq<Link>): seq<Relation> {
    seq(|links|, k requires 0 <= k < |links| => links[k].legs.down)
  }

  function AxisLabel(best: Option<Relation>): Option<Label> {
    if best.Some? then Some(Plain(best.value)) else None
  }

  // ----- the hull result -----

  function VerseSet(vs: seq<VerseId>): set<VerseId> {
    set v | v in vs
  }

  ghost predicate SidesOf(members: seq<VerseId>, route: Route, h: HullSides) {
    && HullOf(members, route, VerseSet(h.sources), h.pivots, VerseSet(h.targets))
    && Ordered(h.sources) && Ordered(h.targets)
  }

  ghost predicate SinglePath(h: HullSides, route: Route, relation: Relation)
    requires h.targets != []
  {
    if h.sources == [] || h.pivots == {} then relation == OneToOne
    else exists p :: p in h.pivots && relation == Joined(LegsOf(h.sources[0], p, h.targets[0], route))
  }

  ghost predicate ResultOf(members: seq<VerseId>, route: Route, h: HullSides, r: Resolution) {
    if h.targets == [] then r == PlainResult(if h.sources == [] then members else h.sources, [], Exclude)
    else if |h.sources| <= 1 && |h.targets| <= 1 then
      r.relation.Plain? && r == PlainResult(h.sources, h.targets, r.relation.relation) && SinglePath(h, route, r.relation.relation)
    else if |h.sources| == 1 then r == PlainResult(h.sources, h.targets, Split)
    else if |h.sources| > 1 && |h.targets| == 1 then r == PlainResult(h.sources, h.targets, Merge)
    else exists links :: AllLinked(h, route, links)
                         && r == Resolution(h.sources, h.targets, Complex, EdgesOf(links),
                                            AxisLabel(Dominant(UpsOf(links))), AxisLabel(Dominant(DownsOf(links))))
  }

  /** The pivot that labels a pair is free, because pivots are iterated as a set; the rest of the result is fixed. */
  ghost predicate HullResult(members: seq<VerseId>, route: Route, r: Resolution) {
    exists h :: SidesOf(members, route, h) && ResultOf(members, route, h, r)
  }

  method BuildHull(members: seq<VerseId>, route: Route) returns (r: Resolution)
    ensures HullResult(members, route, r)
  {
    var sources, pivots, targets := CloseHull(members, route);
    var sourceList := SortSet(sources);
    var targetList := SortSet(targets);
    var h := HullSides(sourceList, pivots, targetList);
    assert SidesOf(members, route, h) by {
      assert VerseSet(sourceList) == sources && VerseSet(targetList) == targets;
    }
    r := ShapeHull(members, route, h);
  }

  method ShapeHull(members: seq<VerseId>, route: Route, h: HullSides) returns (r: Resolution)
    requires Ordered(h.sources) && Ordered(h.targets)
    ensures ResultOf(members, route, h, r)
  {
    if h.targets == [] {
      return PlainResult(if h.sources == [] then members else h.sources, [], Exclude);
    }
    if |h.sources| <= 1 && |h.targets| <= 1 {
      var relation := OneToOne;
      if h.sources != [] && h.pivots != {} {
        var p :| p in h.pivots;
        relation := Joined(LegsOf(h.sources[0], p, h.targets[0], route));
      }
      return PlainResult(h.sources, h.targets, relation);
    }
    if |h.sources| == 1 {
      return PlainResult(h.sources, h.targets, Split);
    }
    if |h.sources| > 1 && |h.targets| == 1 {
      return PlainResult(h.sources, h.targets, Merge);
    }
    var links := LinkPivots(h, route);
    var up := DominantRelation(UpsOf(links));
    var down := DominantRelation(DownsOf(links));
    r := Resolution(h.sources, h.targets, Complex, EdgesOf(links), AxisLabel(up), AxisLabel(down));
  }
}
