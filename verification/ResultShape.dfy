/** The shape every resolve result keeps, whichever path produced it. */
module ResultShape {
  import opened Coordinates
  import opened RelationAlgebra
  import opened VerseOrder
  import opened Walking
  import opened Hulls
  import opened HullResults
  import opened RangeHulls
  import opened Resolving

  predicate EdgesFit(r: Resolution) {
    && (forall e :: e in r.edges ==> e.source < |r.sources| && e.target < |r.targets|)
    && (forall i, j :: 0 <= i < j < |r.edges| ==>
          (r.edges[i].source, r.edges[i].target) != (r.edges[j].source, r.edges[j].target))
    && (r.edges != [] ==> r.relation == Complex || r.relation == Range)
  }

  /** Query verses are sources, nothing is left exactly when the result is an exclusion, and connectors fit. */
  predicate Shaped(members: seq<VerseId>, r: Resolution) {
    && (forall m :: m in members ==> m in r.sources)
    && (r.relation == Plain(Exclude) <==> r.targets == [])
    && EdgesFit(r)
    && (r.relation == Range ==> RangeShaped(r))
  }

  /** A range pairs unequal counts through one connector from each end of its sources. */
  predicate RangeShaped(r: Resolution) {
    && |r.sources| >= 2 && |r.sources| != |r.targets|
    && |r.edges| == 2 && r.edges[0].source == 0 && r.edges[1].source == |r.sources| - 1
  }

  // ----- hulls -----

  lemma EdgesOfFit(h: HullSides, route: Route, links: seq<Link>)
    requires AllLinked(h, route, links)
    ensures var es := EdgesOf(links);
            && (forall e :: e in es ==> e.source < |h.sources| && e.target < |h.targets|)
            && (forall i, j :: 0 <= i < j < |es| ==> (es[i].source, es[i].target) != (es[j].source, es[j].target))
  {
    var seen :| Linked(h, route, links, seen);
    forall k | 0 <= k < |links| ensures links[k].source < |h.sources| && links[k].target < |h.targets| {
      assert links[k] in links && Justified(h, route, links[k]);
    }
  }

  lemma MembersListed(members: seq<VerseId>, route: Route, h: HullSides)
    requires SidesOf(members, route, h)
    ensures forall m :: m in members ==> m in h.sources
  {
    forall m | m in members ensures m in h.sources {
      SeedReachable(SeedsOf(members), Source(m), route);
      assert m in VerseSet(h.sources);
    }
  }

  lemma PlainShaped(members: seq<VerseId>, sources: seq<VerseId>, targets: seq<VerseId>, relation: Relation)
    requires (forall m :: m in members ==> m in sources) && (relation == Exclude <==> targets == [])
    ensures Shaped(members, PlainResult(sources, targets, relation))
  {
  }

  /** The single path is no exclusion. */
  lemma SinglePathArrives(h: HullSides, route: Route, relation: Relation)
    requires h.targets != [] && SinglePath(h, route, relation)
    ensures relation != Exclude
  {
    if h.sources != [] && h.pivots != {} {
      var p :| p in h.pivots && relation == Joined(LegsOf(h.sources[0], p, h.targets[0], route));
      LegsNeverExclude(h.sources[0], p, h.targets[0], route);
    }
  }

  lemma ComplexShaped(members: seq<VerseId>, route: Route, h: HullSides, links: seq<Link>, r: Resolution)
    requires AllLinked(h, route, links) && h.targets != [] && forall m :: m in members ==> m in h.sources
    requires r == Resolution(h.sources, h.targets, Complex, EdgesOf(links), r.sourceRel, r.targetRel)
    ensures Shaped(members, r)
  {
    EdgesOfFit(h, route, links);
  }

  lemma HullShaped(members: seq<VerseId>, route: Route, r: Resolution)
    requires HullResult(members, route, r) && members != []
    ensures Shaped(members, r) && r.relation != Range
  {
    var h :| SidesOf(members, route, h) && ResultOf(members, route, h, r);
    MembersListed(members, route, h);
    assert members[0] in h.sources;
    if h.targets == [] {
      PlainShaped(members, h.sources, [], Exclude);
    } else if |h.sources| <= 1 && |h.targets| <= 1 {
      SinglePathArrives(h, route, r.relation.relation);
      PlainShaped(members, h.sources, h.targets, r.relation.relation);
    } else if |h.sources| == 1 {
      PlainShaped(members, h.sources, h.targets, Split);
    } else if |h.targets| == 1 {
      PlainShaped(members, h.sources, h.targets, Merge);
    } else {
      var links :| AllLinked(h, route, links) && r == Resolution(h.sources, h.targets, Complex, EdgesOf(links), r.sourceRel, r.targetRel);
      ComplexShaped(members, route, h, links, r);
    }
  }

  // ----- connectors of a complex hull -----

  /** A node that is not a seed was reached from some reachable node. */
  lemma LastStep(seeds: set<HullNode>, n: HullNode, route: Route) returns (m: HullNode)
    requires Reachable(seeds, n, route) && n !in seeds
    ensures Reachable(seeds, m, route) && n in Neighbours(m, route)
  {
    var path :| Trail(path, route) && path[0] in seeds && path[|path| - 1] == n;
    var init := path[..|path| - 1];
    TrailInit(path, route);
    m := init[|init| - 1];
    assert init[0] == path[0] && m == path[|path| - 2];
  }

  lemma ReversedDerived(hops: seq<Hop>)
    requires DerivedHops(hops)
    ensures DerivedHops(Reversed(hops))
  {
  }

  lemma Listed(members: seq<VerseId>, route: Route, h: HullSides, v: VerseId)
    requires SidesOf(members, route, h)
    ensures v in h.sources <==> Reachable(SeedsOf(members), Source(v), route)
    ensures v in h.pivots <==> Reachable(SeedsOf(members), Pivot(v), route)
    ensures v in h.targets <==> Reachable(SeedsOf(members), Target(v), route)
  {
    assert v in h.sources <==> v in VerseSet(h.sources);
    assert v in h.targets <==> v in VerseSet(h.targets);
  }

  lemma LinkedPair(h: HullSides, route: Route, links: seq<Link>, p: VerseId, i: nat, j: nat)
    requires AllLinked(h, route, links) && p in h.pivots && Joins(h, route, p, i, j)
    ensures exists e :: e in EdgesOf(links) && e.source == i && e.target == j
  {
    var seen :| Linked(h, route, links, seen)
                && forall p, i: nat, j: nat :: p in h.pivots && Joins(h, route, p, i, j) ==> (i, j) in seen;
    assert (i, j) in seen;
    var l :| l in links && (l.source, l.target) == (i, j);
    var k :| 0 <= k < |links| && links[k] == l;
    assert EdgesOf(links)[k] in EdgesOf(links);
  }

  /** A pivot of the hull joins some listed source to each target it descends to. */
  lemma PivotSource(members: seq<VerseId>, route: Route, h: HullSides, p: VerseId) returns (i: nat)
    requires SidesOf(members, route, h) && p in h.pivots && DerivedHops(route.src)
    ensures i < |h.sources| && h.sources[i] in SrcOfPivot(p, route.src)
  {
    var seeds := SeedsOf(members);
    ReversedDerived(route.src);
    DescentArrives(p, Reversed(route.src));
    var s := Descend(p, Reversed(route.src)).verses[0];
    assert s in Reached(Descend(p, Reversed(route.src)));
    Listed(members, route, h, p);
    StepReachable(seeds, Pivot(p), Source(s), route);
    Listed(members, route, h, s);
    i :| 0 <= i < |h.sources| && h.sources[i] == s;
  }

  lemma PivotTarget(members: seq<VerseId>, route: Route, h: HullSides, p: VerseId) returns (j: nat)
    requires SidesOf(members, route, h) && p in h.pivots && DerivedHops(route.tgt)
    ensures j < |h.targets| && h.targets[j] in DownSet(p, route.tgt)
  {
    var seeds := SeedsOf(members);
    DescentArrives(p, route.tgt);
    var t := Descend(p, route.tgt).verses[0];
    assert t in Reached(Descend(p, route.tgt));
    Listed(members, route, h, p);
    StepReachable(seeds, Pivot(p), Target(t), route);
    Listed(members, route, h, t);
    j :| 0 <= j < |h.targets| && h.targets[j] == t;
  }

  ghost predicate HasEdgeTo(r: Resolution, j: nat) {
    exists e :: e in r.edges && e.target == j
  }

  ghost predicate HasEdgeFrom(r: Resolution, i: nat) {
    exists e :: e in r.edges && e.source == i
  }

  lemma TargetConnected(members: seq<VerseId>, route: Route, h: HullSides, links: seq<Link>, j: nat)
    requires SidesOf(members, route, h) && AllLinked(h, route, links) && DerivedHops(route.src) && j < |h.targets|
    ensures exists e :: e in EdgesOf(links) && e.target == j
  {
    var t := h.targets[j];
    Listed(members, route, h, t);
    var n := LastStep(SeedsOf(members), Target(t), route);
    Listed(members, route, h, n.verse);
    var i := PivotSource(members, route, h, n.verse);
    LinkedPair(h, route, links, n.verse, i, j);
  }

  lemma SourceConnected(members: seq<VerseId>, route: Route, h: HullSides, links: seq<Link>, i: nat)
    requires SidesOf(members, route, h) && AllLinked(h, route, links) && DerivedHops(route.tgt) && i < |h.sources|
    requires h.sources[i] !in members
    ensures exists e :: e in EdgesOf(links) && e.source == i
  {
    var s := h.sources[i];
    Listed(members, route, h, s);
    assert Source(s) !in SeedsOf(members);
    var n := LastStep(SeedsOf(members), Source(s), route);
    Listed(members, route, h, n.verse);
    var j := PivotTarget(members, route, h, n.verse);
    LinkedPair(h, route, links, n.verse, i, j);
  }

  /** In a complex hull every target, and every source beyond the query, carries a connector. */
  lemma ComplexHullConnected(members: seq<VerseId>, route: Route, r: Resolution)
    requires HullResult(members, route, r) && r.relation == Complex
    requires DerivedHops(route.src) && DerivedHops(route.tgt)
    ensures forall j: nat :: j < |r.targets| ==> HasEdgeTo(r, j)
    ensures forall i: nat :: i < |r.sources| && r.sources[i] !in members ==> HasEdgeFrom(r, i)
  {
    var h :| SidesOf(members, route, h) && ResultOf(members, route, h, r);
    var links :| AllLinked(h, route, links) && r.edges == EdgesOf(links);
    forall j: nat | j < |r.targets| ensures HasEdgeTo(r, j) {
      TargetConnected(members, route, h, links, j);
    }
    forall i: nat | i < |r.sources| && r.sources[i] !in members ensures HasEdgeFrom(r, i) {
      SourceConnected(members, route, h, links, i);
    }
  }

  // ----- ranges -----

  lemma WalkArrives(s: VerseId, route: Route)
    requires WalkParticipant(s, route).Some?
    ensures WalkOf(s, route).targets != []
  {
    var up := Ascend(s, route.src);
    WalkShape([s], route.src, true, s.part);
    WalkShape(up.verses, route.tgt, false, s.part);
  }

  /** Without fan-out each corner has exactly one target. */
  lemma TwoCorners(vs: seq<VerseId>, route: Route)
    requires |vs| > 1 && forall s :: s in vs ==> WalkParticipant(s, route).Some?
    requires !HasFanout(WalkOf(vs[0], route)) && !HasFanout(WalkOf(vs[|vs| - 1], route))
    ensures var es := CornerEdges(vs, SortVerses(TargetsOver(vs, route)), route);
            |es| == 2 && es[0].source == 0 && es[1].source == |vs| - 1
  {
    WalkArrives(vs[0], route);
    WalkArrives(vs[|vs| - 1], route);
  }

  lemma RangeResultShaped(t: RangeTrigger, members: seq<VerseId>, vs: seq<VerseId>, targets: seq<VerseId>, route: Route)
    requires |vs| > 1 && RangeResult(t, vs, targets, route).Some? && forall m :: m in members ==> m in vs
    requires var es := CornerEdges(vs, targets, route);
             && (forall e :: e in es ==> (e.source == 0 || e.source == |vs| - 1) && e.target < |targets|)
             && (forall i, j :: 0 <= i < j < |es| ==> (es[i].source, es[i].target) != (es[j].source, es[j].target))
             && (!Escalates(t, vs, route) ==> |es| == 2 && es[0].source == 0 && es[1].source == |vs| - 1)
    ensures Shaped(members, RangeResult(t, vs, targets, route).value)
  {
  }

  lemma RangeOutcomeShaped(t: RangeTrigger, members: seq<VerseId>, route: Route)
    requires RangeOutcome(t, members, route).Some?
    ensures Shaped(members, RangeOutcome(t, members, route).value)
  {
    var vs := Participants(t, route);
    forall s | s in vs ensures WalkParticipant(s, route).Some? {
    }
    CornersFit(vs, route);
    if !Escalates(t, vs, route) {
      TwoCorners(vs, route);
    }
    RangeResultShaped(t, members, vs, SortVerses(TargetsOver(vs, route)), route);
  }

  // ----- the atomic path -----

  lemma StraightArrives(m: VerseId, route: Route)
    ensures StepOf(m, route).Straight? ==> StepOf(m, route).targets != []
  {
    var up := Ascend(m, route.src);
    WalkShape([m], route.src, true, m.part);
    WalkShape(up.verses, route.tgt, false, m.part);
  }

  lemma {:induction false} StraightTargetsKept(ms: seq<VerseId>, route: Route, m: VerseId)
    requires m in ms && StepOf(m, route).Straight?
    ensures forall t :: t in StepOf(m, route).targets ==> t in StraightTargets(ms, route)
  {
    var init, last := ms[..|ms| - 1], ms[|ms| - 1];
    assert ms == init + [last];
    if m in init {
      StraightTargetsKept(init, route, m);
    }
  }

  lemma AtomicShaped(members: seq<VerseId>, route: Route)
    requires members != [] && AtomicOutcome(members, route).Some?
    ensures Shaped(members, AtomicOutcome(members, route).value)
    ensures AtomicOutcome(members, route).value.relation != Range
  {
    var relations := StepRelations(members, route);
    if relations != {Exclude} {
      var m := members[0];
      var r := StepRelation(StepOf(m, route));
      assert m in members && r in relations;
      if r == Exclude {
        forall q | q in relations ensures q == Exclude {
          OnlyMember(relations, q, r);
        }
      } else {
        StraightArrives(m, route);
        var t := StepOf(m, route).targets[0];
        StraightTargetsKept(members, route, m);
        assert t in SortVerses(StraightTargets(members, route));
      }
    }
  }

  lemma NormalizeShaped(members: seq<VerseId>, r: Resolution)
    requires Shaped(members, r)
    ensures Shaped(members, Normalize(r))
  {
  }

  lemma NormalizedAtomicShaped(members: seq<VerseId>, route: Route, r: Resolution)
    requires members != [] && NormalizedAtomic(members, route, r)
    ensures Shaped(members, r)
  {
    var raw :| AtomicResultOf(members, route, raw) && r == Normalize(raw);
    if AtomicOutcome(members, route).Some? {
      AtomicShaped(members, route);
    } else {
      HullShaped(members, route, raw);
    }
    NormalizeShaped(members, raw);
  }

  /** Every assembled result is shaped, for any rows and any chains. */
  lemma AssembledShaped(members: seq<VerseId>, route: Route, r: Resolution)
    requires members != [] && Assembled(members, route, r)
    ensures Shaped(members, r)
  {
    var trigger := TriggerOf(members, route);
    if trigger.None? {
      NormalizedAtomicShaped(members, route, r);
    } else {
      var hull :| HullResult(members, route, hull) && AssembledAround(members, route, trigger.value, hull, r);
      var ranged := RangeOutcome(trigger.value, members, route);
      if hull.relation == Complex {
        HullShaped(members, route, hull);
      } else if ranged.Some? {
        RangeOutcomeShaped(trigger.value, members, route);
        NormalizeShaped(members, ranged.value);
      } else {
        NormalizedAtomicShaped(members, route, r);
      }
    }
  }
}
