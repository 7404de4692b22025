/** Assembling a resolve result: the atomic path, the range path, the hull, and same-coordinate normalization. */
module Resolving {
  import opened Options
  import opened Coordinates
  import opened RelationAlgebra
  import opened VerseOrder
  import opened Walking
  import opened Hulls
  import opened HullResults
  import opened RangeHulls
  import References

  // ----- normalization -----

  /** Result spans carry printed references, so sharing a coordinate is comparing text. */
  predicate ShareBcv(s: VerseId, t: VerseId) {
    References.FormatBcv(s) == References.FormatBcv(t) && s.part == t.part
  }

  lemma ShareBcvIff(s: VerseId, t: VerseId)
    ensures ShareBcv(s, t) <==> s == t
  {
    References.PrintInjective(s, t);
  }

  function Normalize(r: Resolution): Resolution {
    if r.relation != Plain(Renumber) && r.relation != Plain(Shift) then r
    else if |r.sources| != 1 || |r.targets| != 1 || !ShareBcv(r.sources[0], r.targets[0]) then r
    else r.(relation := Plain(OneToOne))
  }

  // ----- the atomic path -----

  datatype Step = Gone | Fan | Straight(relation: Relation, targets: seq<VerseId>)

  /** What one query verse does: it is excluded, it fans out and needs the hull, or it goes straight. */
  function StepOf(m: VerseId, route: Route): Step {
    var up := Ascend(m, route.src);
    var down := WalkHops(up.verses, route.tgt, false);
    if up.excluded && up.verses == [] then Gone
    else if down.excluded && down.verses == [] then Gone
    else if FansOut(up.relation) || FansOut(down.relation) then Fan
    else if (exists s :: s in up.siblings && s != m) && |down.verses| > 1 then Fan
    else Straight(Compose(up.relation, down.relation), down.verses)
  }

  function StepRelation(s: Step): Relation {
    if s.Straight? then s.relation else Exclude
  }

  function SiblingsOver(ms: seq<VerseId>, route: Route): seq<VerseId> {
    if ms == [] then [] else SiblingsOver(ms[..|ms| - 1], route) + Ascend(ms[|ms| - 1], route.src).siblings
  }

  function StraightTargets(ms: seq<VerseId>, route: Route): seq<VerseId> {
    if ms == [] then []
    else
      var s := StepOf(ms[|ms| - 1], route);
      StraightTargets(ms[..|ms| - 1], route) + (if s.Straight? then s.targets else [])
  }

  function StepRelations(ms: seq<VerseId>, route: Route): set<Relation> {
    set m | m in ms :: StepRelation(StepOf(m, route))
  }

  /** One same-chapter stretch of consecutive verses. */
  predicate Contiguous(vs: seq<VerseId>) {
    forall i :: 0 <= i < |vs| ==>
      vs[i].book == vs[0].book && vs[i].chapter == vs[0].chapter && vs[i].verse == vs[0].verse + i
  }

  function StraightResult(sources: seq<VerseId>, targets: seq<VerseId>, relation: Relation): Resolution {
    PlainResult(sources, targets,
                if |sources| == 1 && |targets| > 1 then Split
                else if |sources| > 1 && |targets| == 1 then Merge
                else relation)
  }

  /** All members excluded, or all on one relation over contiguous sides; anything else needs the hull. */
  function StraightOutcome(sources: seq<VerseId>, targets: seq<VerseId>, relations: set<Relation>, relation: Relation): Option<Resolution> {
    if relations == {Exclude} then Some(PlainResult(sources, [], Exclude))
    else if |relations| != 1 || !Contiguous(sources) || !Contiguous(targets) then None
    else Some(StraightResult(sources, targets, relation))
  }

  /** The atomic result, or none when the members need the hull. */
  function AtomicOutcome(members: seq<VerseId>, route: Route): Option<Resolution> {
    if exists m :: m in members && StepOf(m, route).Fan? then None
    else
      StraightOutcome(
        SortVerses(members + SiblingsOver(members, route)), SortVerses(StraightTargets(members, route)),
        StepRelations(members, route), if members == [] then OneToOne else StepRelation(StepOf(members[0], route)))
  }

  ghost predicate AtomicResultOf(members: seq<VerseId>, route: Route, r: Resolution) {
    var outcome := AtomicOutcome(members, route);
    if outcome.Some? then r == outcome.value else HullResult(members, route, r)
  }

  lemma OnlyMember<T>(s: set<T>, x: T, y: T)
    requires x in s && y in s && |s| == 1
    ensures x == y
  {
    assert |s - {x}| == 0;
    assert s == {x} + (s - {x});
  }

  lemma SingleRelation(members: seq<VerseId>, route: Route, r: Relation)
    requires r in StepRelations(members, route) && |StepRelations(members, route)| == 1
    ensures members != [] && r == StepRelation(StepOf(members[0], route))
  {
    assert members[0] in members;
    OnlyMember(StepRelations(members, route), StepRelation(StepOf(members[0], route)), r);
  }

  ghost predicate Scanned(seen: seq<VerseId>, route: Route,
                          extra: seq<VerseId>, targets: seq<VerseId>, relations: set<Relation>) {
    && extra == SiblingsOver(seen, route) && targets == StraightTargets(seen, route)
    && relations == StepRelations(seen, route)
    && (forall m :: m in seen ==> !StepOf(m, route).Fan?)
  }

  lemma StepRelationsSnoc(init: seq<VerseId>, m: VerseId, route: Route)
    ensures StepRelations(init + [m], route) == StepRelations(init, route) + {StepRelation(StepOf(m, route))}
  {
    var more := init + [m];
    assert m in more && forall v :: v in more <==> v in init || v == m;
  }

  lemma ScanStep(seen: seq<VerseId>, route: Route, m: VerseId,
                 extra: seq<VerseId>, targets: seq<VerseId>, relations: set<Relation>)
    requires Scanned(seen, route, extra, targets, relations) && !StepOf(m, route).Fan?
    ensures var s := StepOf(m, route);
            Scanned(seen + [m], route, extra + Ascend(m, route.src).siblings,
                    if s.Straight? then targets + s.targets else targets, relations + {StepRelation(s)})
  {
    assert (seen + [m])[..|seen|] == seen;
    StepRelationsSnoc(seen, m, route);
    assert targets + [] == targets;
  }

  /** Classify one member by walking it up and down. */
  method TakeStep(m: VerseId, route: Route) returns (s: Step, siblings: seq<VerseId>)
    ensures s == StepOf(m, route) && forall v :: v in siblings <==> v in Ascend(m, route.src).siblings
  {
    var pivots, up, upGone, found := ApplyHopsForward([m], route.src);
    siblings := found;
    if upGone && pivots == [] {
      return Gone, siblings;
    }
    var targets, down, downGone := ApplyHopsDownward(pivots, route.tgt);
    if downGone && targets == [] {
      return Gone, siblings;
    }
    if FansOut(up) || FansOut(down) {
      return Fan, siblings;
    }
    if (exists v :: v in siblings && v != m) && |targets| > 1 {
      return Fan, siblings;
    }
    s := Straight(Compose(up, down), targets);
  }

  method AtomicResult(members: seq<VerseId>, route: Route) returns (r: Resolution)
    ensures AtomicResultOf(members, route, r)
  {
    var fan, allSources, targets, relations := WalkMembers(members, route);
    if fan {
      r := BuildHull(members, route);
      return;
    }
    var sourceList := SortSet(allSources);
    SourceListIs(members, route, sourceList);
    r := FinishAtomic(members, route, sourceList, SortVerses(targets), relations);
  }

  /** Walk the members one by one, and stop at the first that fans out. */
  method WalkMembers(members: seq<VerseId>, route: Route)
      returns (fan: bool, allSources: set<VerseId>, targets: seq<VerseId>, relations: set<Relation>)
    ensures fan ==> AtomicOutcome(members, route).None?
    ensures !fan ==> Scanned(members, route, SiblingsOver(members, route), targets, relations)
    ensures !fan ==> SourcesSoFar(allSources, members, SiblingsOver(members, route))
  {
    allSources, targets, relations := (set m | m in members), [], {};
    ghost var extra: seq<VerseId> := [];
    for i := 0 to |members|
      invariant Scanned(members[..i], route, extra, targets, relations)
      invariant SourcesSoFar(allSources, members, extra)
    {
      var step, siblings := TakeStep(members[i], route);
      if step == Fan {
        FanMeansHull(members, i, route);
        fan := true;
        return;
      }
      assert members[..i + 1] == members[..i] + [members[i]];
      ghost var before := extra;
      targets, relations, extra := AddStep(members[..i], route, members[i], step, targets, relations, extra);
      allSources := AddSiblings(allSources, members, before, siblings, Ascend(members[i], route.src).siblings);
    }
    assert members[..|members|] == members;
    fan := false;
  }

  lemma FanMeansHull(members: seq<VerseId>, i: nat, route: Route)
    requires i < |members| && StepOf(members[i], route).Fan?
    ensures AtomicOutcome(members, route).None?
  {
    assert members[i] in members;
  }

  /** The query members and the siblings gathered so far. */
  ghost predicate SourcesSoFar(sources: set<VerseId>, members: seq<VerseId>, extra: seq<VerseId>) {
    forall v :: v in sources <==> v in members || v in extra
  }

  method AddSiblings(sources: set<VerseId>, ghost members: seq<VerseId>, ghost extra: seq<VerseId>,
                     siblings: seq<VerseId>, ghost more: seq<VerseId>) returns (sources': set<VerseId>)
    requires SourcesSoFar(sources, members, extra) && forall v :: v in siblings <==> v in more
    ensures SourcesSoFar(sources', members, extra + more)
  {
    sources' := sources + set v | v in siblings;
  }

  /** A member that does not fan out adds its relation, its siblings and, when it goes straight, its targets. */
  method AddStep(ghost seen: seq<VerseId>, ghost route: Route, ghost m: VerseId, step: Step,
                 targets: seq<VerseId>, relations: set<Relation>, ghost extra: seq<VerseId>)
      returns (targets': seq<VerseId>, relations': set<Relation>, ghost extra': seq<VerseId>)
    requires Scanned(seen, route, extra, targets, relations) && step == StepOf(m, route) && !step.Fan?
    ensures Scanned(seen + [m], route, extra', targets', relations')
    ensures extra' == extra + Ascend(m, route.src).siblings
  {
    ScanStep(seen, route, m, extra, targets, relations);
    extra' := extra + Ascend(m, route.src).siblings;
    relations' := relations + {StepRelation(step)};
    targets' := if step.Straight? then targets + step.targets else targets;
  }

  lemma SourceListIs(members: seq<VerseId>, route: Route, sources: seq<VerseId>)
    requires Ordered(sources)
    requires forall v :: v in sources <==> v in members || v in SiblingsOver(members, route)
    ensures sources == SortVerses(members + SiblingsOver(members, route))
  {
    SortOrdered(members + SiblingsOver(members, route));
    OrderedUnique(sources, SortVerses(members + SiblingsOver(members, route)));
  }

  method FinishAtomic(members: seq<VerseId>, route: Route, sources: seq<VerseId>, targets: seq<VerseId>, relations: set<Relation>)
    returns (r: Resolution)
    requires sources == SortVerses(members + SiblingsOver(members, route))
    requires targets == SortVerses(StraightTargets(members, route)) && relations == StepRelations(members, route)
    requires forall m :: m in members ==> !StepOf(m, route).Fan?
    ensures AtomicResultOf(members, route, r)
  {
    if relations == {Exclude} {
      return PlainResult(sources, [], Exclude);
    }
    if |relations| != 1 || !Contiguous(sources) || !Contiguous(targets) {
      r := BuildHull(members, route);
      return;
    }
    var relation :| relation in relations;
    SingleRelation(members, route, relation);
    if |sources| == 1 && |targets| > 1 {
      relation := Split;
    } else if |sources| > 1 && |targets| == 1 {
      relation := Merge;
    }
    r := PlainResult(sources, targets, relation);
  }

  // ----- assembly -----

  ghost predicate NormalizedAtomic(members: seq<VerseId>, route: Route, r: Resolution) {
    exists raw :: AtomicResultOf(members, route, raw) && r == Normalize(raw)
  }

  /** A triggered range yields to a complex hull, and falls back to the atomic path when it declines. */
  ghost predicate Assembled(members: seq<VerseId>, route: Route, r: Resolution) {
    var trigger := TriggerOf(members, route);
    if trigger.None? then NormalizedAtomic(members, route, r)
    else
      exists hull :: HullResult(members, route, hull) && AssembledAround(members, route, trigger.value, hull, r)
  }

  ghost predicate AssembledAround(members: seq<VerseId>, route: Route, t: RangeTrigger, hull: Resolution, r: Resolution) {
    var ranged := RangeOutcome(t, members, route);
    if hull.relation == Complex then r == hull
    else if ranged.Some? then r == Normalize(ranged.value)
    else NormalizedAtomic(members, route, r)
  }

  method Assemble(members: seq<VerseId>, route: Route) returns (r: Resolution)
    ensures Assembled(members, route, r)
  {
    var trigger := FindRangeTrigger(members, route);
    if trigger != None {
      var hull := BuildHull(members, route);
      if hull.relation == Complex {
        assert AssembledAround(members, route, trigger.value, hull, hull);
        return hull;
      }
      var ranged := BuildRangeHull(trigger.value, members, route);
      if ranged != None {
        assert AssembledAround(members, route, trigger.value, hull, Normalize(ranged.value));
        return Normalize(ranged.value);
      }
      var raw := AtomicResult(members, route);
      r := Normalize(raw);
      assert NormalizedAtomic(members, route, r);
      assert AssembledAround(members, route, trigger.value, hull, r);
      return;
    }
    var raw := AtomicResult(members, route);
    r := Normalize(raw);
  }
}
