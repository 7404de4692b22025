/** Unequal-length zip ranges: what triggers a range hull, who takes part, and the result it yields. */
module RangeHulls {
  import opened Options
  import opened Coordinates
  import opened RelationAlgebra
  import opened Cover
  import opened VerseOrder
  import opened Walking
  import opened Hulls
  import opened HullResults

  datatype TriggerSide = OnSource | OnTarget

  /** An unequal zip row met on the path; `hop` indexes the hop list of its side. */
  datatype RangeTrigger = RangeTrigger(side: TriggerSide, hop: nat, cover: RefRange, output: RefRange, ordinal: nat)

  predicate ZipClass(r: Relation) {
    r == OneToOne || r == Shift || r == Renumber
  }

  predicate Unequal(row: Row) {
    ZipClass(row.relation) && row.base.Some? && row.source.Length() != row.base.value.Length()
  }

  function Candidate(row: Row, side: TriggerSide, hop: nat): Option<RangeTrigger> {
    if !Unequal(row) then None
    else if side == OnSource then Some(RangeTrigger(side, hop, row.source, row.base.value, row.ordinal))
    else Some(RangeTrigger(side, hop, row.base.value, row.source, row.ordinal))
  }

  /** Sort key: width, ordinal, source side first, then the hop nearest the query or the target. */
  function TriggerKey(t: RangeTrigger): (nat, nat, nat, int) {
    (t.cover.more, t.ordinal, if t.side == OnSource then 0 else 1, if t.side == OnSource then t.hop as int else -(t.hop as int))
  }

  predicate TriggerLess(s: RangeTrigger, t: RangeTrigger) {
    var x, y := TriggerKey(s), TriggerKey(t);
    || x.0 < y.0
    || (x.0 == y.0 && (x.1 < y.1 || (x.1 == y.1 && (x.2 < y.2 || (x.2 == y.2 && x.3 < y.3)))))
  }

  function HopTriggers(vs: seq<VerseId>, hop: Hop, side: TriggerSide, n: nat): seq<RangeTrigger> {
    if vs == [] then []
    else
      var row := Covering(hop, vs[|vs| - 1], side == OnSource);
      var found := if row.Some? then Candidate(row.value, side, n) else None;
      HopTriggers(vs[..|vs| - 1], hop, side, n) + (if found.Some? then [found.value] else [])
  }

  /** Candidates met while walking one side. */
  function SideTriggers(vs: seq<VerseId>, hops: seq<Hop>, side: TriggerSide): seq<RangeTrigger> {
    if hops == [] then []
    else
      var n := |hops| - 1;
      SideTriggers(vs, hops[..n], side)
      + HopTriggers(WalkHops(vs, hops[..n], side == OnSource).verses, hops[n], side, n)
  }

  function Triggers(members: seq<VerseId>, route: Route): seq<RangeTrigger> {
    SideTriggers(members, route.src, OnSource)
    + SideTriggers(WalkHops(members, route.src, true).verses, route.tgt, OnTarget)
  }

  /** The first least candidate. */
  function Least(ts: seq<RangeTrigger>): Option<RangeTrigger> {
    if ts == [] then None
    else
      var best, last := Least(ts[..|ts| - 1]), ts[|ts| - 1];
      if best.None? || TriggerLess(last, best.value) then Some(last) else best
  }

  predicate NamesPart(v: VerseId) {
    v.part.Some? && v.part.value != ""
  }

  function TriggerOf(members: seq<VerseId>, route: Route): Option<RangeTrigger> {
    if exists m :: m in members && NamesPart(m) then None else Least(Triggers(members, route))
  }

  lemma {:induction false} LeastIsLeast(ts: seq<RangeTrigger>)
    ensures var t := Least(ts);
            && (t.None? <==> ts == [])
            && (t.Some? ==> t.value in ts && forall s :: s in ts ==> !TriggerLess(s, t.value))
  {
    if ts != [] {
      LeastIsLeast(ts[..|ts| - 1]);
      assert ts == ts[..|ts| - 1] + [ts[|ts| - 1]];
    }
  }

  /** Which verses a hop yields does not depend on the relation carried into it. */
  lemma {:induction false} CrossIgnoresRelation(vs: seq<VerseId>, hop: Hop, upward: bool, r: Relation, q: Relation)
    ensures CrossVerses(vs, hop, upward, r).verses == CrossVerses(vs, hop, upward, q).verses
  {
    if vs != [] {
      CrossIgnoresRelation(vs[..|vs| - 1], hop, upward, r, q);
    }
  }

  lemma {:induction false} NoMoreTriggers(vs: seq<VerseId>, hops: seq<Hop>, side: TriggerSide, n: nat)
    requires n <= |hops| && WalkHops(vs, hops[..n], side == OnSource).verses == []
    ensures SideTriggers(vs, hops, side) == SideTriggers(vs, hops[..n], side)
    ensures WalkHops(vs, hops, side == OnSource).verses == []
  {
    if n == |hops| {
      assert hops[..n] == hops;
    } else {
      var init := hops[..|hops| - 1];
      assert init[..n] == hops[..n];
      NoMoreTriggers(vs, init, side, n);
    }
  }

  method HopCandidates(vs: seq<VerseId>, hop: Hop, side: TriggerSide, n: nat) returns (found: seq<RangeTrigger>)
    ensures found == HopTriggers(vs, hop, side, n)
  {
    found := [];
    for i := 0 to |vs|
      invariant found == HopTriggers(vs[..i], hop, side, n)
    {
      assert vs[..i + 1][..i] == vs[..i];
      var record := FindCoveringRecord(hop, vs[i], side == OnSource);
      if record == None {
        continue;
      }
      var candidate := Candidate(record.value, side, n);
      if candidate != None {
        found := found + [candidate.value];
      }
    }
    assert vs[..|vs|] == vs;
  }

  ghost predicate Gathered(vs: seq<VerseId>, hops: seq<Hop>, side: TriggerSide, n: int,
                           current: seq<VerseId>, found: seq<RangeTrigger>) {
    && 0 <= n <= |hops|
    && current == WalkHops(vs, hops[..n], side == OnSource).verses
    && found == SideTriggers(vs, hops[..n], side)
  }

  lemma GatherStep(vs: seq<VerseId>, hops: seq<Hop>, side: TriggerSide, n: int, current: seq<VerseId>, found: seq<RangeTrigger>)
    requires Gathered(vs, hops, side, n, current, found) && n < |hops|
    ensures Gathered(vs, hops, side, n + 1,
                     SortVerses(CrossVerses(current, hops[n], side == OnSource, OneToOne).verses),
                     found + HopTriggers(current, hops[n], side, n))
  {
    var more := hops[..n + 1];
    assert more[..n] == hops[..n];
    CrossIgnoresRelation(current, hops[n], side == OnSource, OneToOne, WalkHops(vs, hops[..n], side == OnSource).relation);
  }

  /** Walk one side, collecting candidates; stops when no verse is left. */
  method SideCandidates(vs: seq<VerseId>, hops: seq<Hop>, side: TriggerSide)
    returns (current: seq<VerseId>, found: seq<RangeTrigger>)
    ensures current == WalkHops(vs, hops, side == OnSource).verses
    ensures found == SideTriggers(vs, hops, side)
  {
    current, found := vs, [];
    var n := 0;
    while n < |hops|
      invariant Gathered(vs, hops, side, n, current, found)
    {
      GatherStep(vs, hops, side, n, current, found);
      var more := HopCandidates(current, hops[n], side, n);
      var next, relation, excluded, siblings := CrossOne(current, hops[n], side == OnSource, OneToOne);
      current, found := SortVerses(next), found + more;
      n := n + 1;
      if current == [] {
        break;
      }
    }
    if n == |hops| {
      assert hops[..n] == hops;
    } else {
      NoMoreTriggers(vs, hops, side, n);
    }
  }

  method FindRangeTrigger(members: seq<VerseId>, route: Route) returns (chosen: Option<RangeTrigger>)
    ensures chosen == TriggerOf(members, route)
  {
    if exists m :: m in members && NamesPart(m) {
      return None;
    }
    var pivots, onSource := SideCandidates(members, route.src, OnSource);
    var targets, onTarget := SideCandidates(pivots, route.tgt, OnTarget);
    chosen := Least(onSource + onTarget);
  }

  // ----- participants -----

  function Prefix(hops: seq<Hop>, n: nat): seq<Hop> {
    if n <= |hops| then hops[..n] else hops
  }

  function SourcesUnder(pivots: seq<VerseId>, hops: seq<Hop>): seq<VerseId> {
    if pivots == [] then []
    else
      SourcesUnder(pivots[..|pivots| - 1], hops) + Arrivals(Descend(pivots[|pivots| - 1], Reversed(hops)))
  }

  function ParticipantsOver(vs: seq<VerseId>, t: RangeTrigger, route: Route): seq<VerseId> {
    if vs == [] then []
    else
      var v := vs[|vs| - 1];
      ParticipantsOver(vs[..|vs| - 1], t, route) + ParticipantsOf(v, t, route)
  }

  function ParticipantsOf(v: VerseId, t: RangeTrigger, route: Route): seq<VerseId> {
    if t.side == OnSource then Arrivals(Descend(v, Reversed(Prefix(route.src, t.hop))))
    else SourcesUnder(Arrivals(Ascend(v, Reversed(Prefix(route.tgt, t.hop)))), route.src)
  }

  /** The trigger's cover carried back to query coordinates, sorted. */
  function Participants(t: RangeTrigger, route: Route): seq<VerseId> {
    SortVerses(ParticipantsOver(Expand(t.cover), t, route))
  }

  datatype ParticipantWalk = ParticipantWalk(targets: seq<VerseId>, up: Relation, down: Relation)

  /** One participant through both chains; none when every branch is excluded. */
  function WalkParticipant(s: VerseId, route: Route): Option<ParticipantWalk> {
    var up := Ascend(s, route.src);
    var down := WalkHops(up.verses, route.tgt, false);
    if up.excluded && up.verses == [] then None
    else if down.excluded && down.verses == [] then None
    else Some(ParticipantWalk(down.verses, up.relation, down.relation))
  }

  function WalkOf(s: VerseId, route: Route): ParticipantWalk {
    var w := WalkParticipant(s, route);
    if w.Some? then w.value else ParticipantWalk([], OneToOne, OneToOne)
  }

  predicate AnyExcluded(vs: seq<VerseId>, route: Route) {
    exists s :: s in vs && WalkParticipant(s, route).None?
  }

  function TargetsOver(vs: seq<VerseId>, route: Route): seq<VerseId> {
    if vs == [] then [] else TargetsOver(vs[..|vs| - 1], route) + WalkOf(vs[|vs| - 1], route).targets
  }

  predicate FansOut(r: Relation) {
    r == Split || r == Merge
  }

  predicate HasFanout(w: ParticipantWalk) {
    |w.targets| > 1 || FansOut(w.up) || FansOut(w.down)
  }

  /** Fan-out that stays on the source climb of a source-side trigger is absorbed by the range. */
  predicate InteriorComplex(side: TriggerSide, w: ParticipantWalk) {
    HasFanout(w) && (|w.targets| > 1 || FansOut(w.down) || !(FansOut(w.up) && |w.targets| == 1 && side == OnSource))
  }

  predicate Escalates(t: RangeTrigger, sources: seq<VerseId>, route: Route) {
    sources != [] &&
    (|| HasFanout(WalkOf(sources[0], route))
     || HasFanout(WalkOf(sources[|sources| - 1], route))
     || AnyComplex(t.side, InteriorWalks(sources, route)))
  }

  /** The walks of the participants between the corners. */
  function InteriorWalks(sources: seq<VerseId>, route: Route): seq<ParticipantWalk> {
    if |sources| < 3 then []
    else seq(|sources| - 2, i requires 0 <= i < |sources| - 2 => WalkOf(sources[i + 1], route))
  }

  predicate AnyComplex(side: TriggerSide, walks: seq<ParticipantWalk>) {
    exists i :: 0 <= i < |walks| && InteriorComplex(side, walks[i])
  }

  function Position(vs: seq<VerseId>, v: VerseId): nat {
    if v in vs then IndexOf(vs, v) else 0
  }

  function EdgesFrom(targets: seq<VerseId>, i: nat, w: ParticipantWalk): seq<HullEdge> {
    seq(|w.targets|, k requires 0 <= k < |w.targets| =>
      HullEdge(i, Position(targets, w.targets[k]), Compose(w.up, w.down)))
  }

  /** Connectors leave the first and the last source only. */
  function CornerEdges(sources: seq<VerseId>, targets: seq<VerseId>, route: Route): seq<HullEdge>
    requires |sources| > 1
  {
    var last := |sources| - 1;
    EdgesFrom(targets, 0, WalkOf(sources[0], route)) + EdgesFrom(targets, last, WalkOf(sources[last], route))
  }

  function UpRelations(vs: seq<VerseId>, route: Route): seq<Relation> {
    seq(|vs|, k requires 0 <= k < |vs| => WalkOf(vs[k], route).up)
  }

  function DownRelations(vs: seq<VerseId>, route: Route): seq<Relation> {
    seq(|vs|, k requires 0 <= k < |vs| => WalkOf(vs[k], route).down)
  }

  /** Which axis carries the range, and what dominates the other. */
  function AxisLabels(side: TriggerSide, sources: seq<VerseId>, route: Route): (Option<Label>, Option<Label>) {
    if side == OnSource then (Some(Range), AxisLabel(Dominant(DownRelations(sources, route))))
    else (AxisLabel(Dominant(UpRelations(sources, route))), Some(Range))
  }

  /** The result for given sources and targets; equal counts without fan-out decline. */
  function RangeResult(t: RangeTrigger, sources: seq<VerseId>, targets: seq<VerseId>, route: Route): Option<Resolution>
    requires |sources| > 1
  {
    var edges := CornerEdges(sources, targets, route);
    if targets == [] then None
    else if Escalates(t, sources, route) then
      var axes := AxisLabels(t.side, sources, route);
      Some(Resolution(sources, targets, Complex, edges, axes.0, axes.1))
    else if |sources| == |targets| then None
    else Some(Resolution(sources, targets, Range, edges, None, None))
  }

  /** The range result, or none when the range declines. */
  function RangeOutcome(t: RangeTrigger, members: seq<VerseId>, route: Route): Option<Resolution> {
    var sources := Participants(t, route);
    if |sources| < 2 then None
    else if exists m :: m in members && m !in sources then None
    else if AnyExcluded(sources, route) then None
    else RangeResult(t, sources, SortVerses(TargetsOver(sources, route)), route)
  }

  // ----- the loops -----

  method SourcesFor(pivots: seq<VerseId>, hops: seq<Hop>) returns (found: seq<VerseId>)
    ensures found == SourcesUnder(pivots, hops)
  {
    found := [];
    for i := 0 to |pivots|
      invariant found == SourcesUnder(pivots[..i], hops)
    {
      assert pivots[..i + 1][..i] == pivots[..i];
      found := found + Arrivals(Descend(pivots[i], Reversed(hops)));
    }
    assert pivots[..|pivots|] == pivots;
  }

  method ParticipantsFor(t: RangeTrigger, route: Route) returns (found: seq<VerseId>)
    ensures found == ParticipantsOver(Expand(t.cover), t, route)
  {
    var vs := Expand(t.cover);
    found := [];
    for i := 0 to |vs|
      invariant found == ParticipantsOver(vs[..i], t, route)
    {
      assert vs[..i + 1][..i] == vs[..i];
      var more := CarryBack(vs[i], t, route);
      found := found + more;
    }
    assert vs[..|vs|] == vs;
  }

  method CarryBack(v: VerseId, t: RangeTrigger, route: Route) returns (found: seq<VerseId>)
    ensures found == ParticipantsOf(v, t, route)
  {
    if t.side == OnSource {
      found := Arrivals(Descend(v, Reversed(Prefix(route.src, t.hop))));
    } else {
      found := SourcesFor(Arrivals(Ascend(v, Reversed(Prefix(route.tgt, t.hop)))), route.src);
    }
  }

  /** Walk every participant; stops with nothing at the first excluded one. */
  method WalkAll(sources: seq<VerseId>, route: Route) returns (targets: Option<seq<VerseId>>)
    ensures targets == if AnyExcluded(sources, route) then None else Some(TargetsOver(sources, route))
  {
    var found: seq<VerseId> := [];
    for i := 0 to |sources|
      invariant !AnyExcluded(sources[..i], route) && found == TargetsOver(sources[..i], route)
    {
      assert sources[..i + 1] == sources[..i] + [sources[i]] && sources[..i + 1][..i] == sources[..i];
      var walk := WalkParticipant(sources[i], route);
      if walk == None {
        assert sources[i] in sources && AnyExcluded(sources, route);
        return None;
      }
      found := found + walk.value.targets;
    }
    assert sources[..|sources|] == sources;
    targets := Some(found);
  }

  method InteriorRequiresComplex(side: TriggerSide, walks: seq<ParticipantWalk>) returns (complex: bool)
    ensures complex <==> AnyComplex(side, walks)
  {
    for i := 0 to |walks|
      invariant forall k :: 0 <= k < i ==> !InteriorComplex(side, walks[k])
    {
      if !HasFanout(walks[i]) {
        continue;
      }
      if |walks[i].targets| > 1 || FansOut(walks[i].down) {
        return true;
      }
      if FansOut(walks[i].up) && |walks[i].targets| == 1 && side == OnSource {
        continue;
      }
      return true;
    }
    complex := false;
  }

  // ----- corner connectors -----

  lemma {:induction false} TargetsListed(vs: seq<VerseId>, route: Route, s: VerseId)
    requires s in vs
    ensures forall t :: t in WalkOf(s, route).targets ==> t in TargetsOver(vs, route)
  {
    var init, last := vs[..|vs| - 1], vs[|vs| - 1];
    assert vs == init + [last];
    if s in init {
      TargetsListed(init, route, s);
    }
  }

  lemma WalkOrdered(vs: seq<VerseId>, hops: seq<Hop>, upward: bool)
    requires Ordered(vs)
    ensures Ordered(WalkHops(vs, hops, upward).verses)
  {
    if hops != [] {
      var w := WalkHops(vs, hops[..|hops| - 1], upward);
      SortOrdered(CrossVerses(w.verses, hops[|hops| - 1], upward, w.relation).verses);
    }
  }

  lemma TargetsOrdered(s: VerseId, route: Route)
    ensures Ordered(WalkOf(s, route).targets)
  {
    WalkOrdered([s], route.src, true);
    WalkOrdered(Ascend(s, route.src).verses, route.tgt, false);
  }

  lemma EdgesFromFit(targets: seq<VerseId>, i: nat, w: ParticipantWalk)
    requires Ordered(w.targets) && forall t :: t in w.targets ==> t in targets
    ensures forall e :: e in EdgesFrom(targets, i, w) ==> e.source == i && e.target < |targets|
    ensures forall k, l :: 0 <= k < l < |w.targets| ==>
              EdgesFrom(targets, i, w)[k].target != EdgesFrom(targets, i, w)[l].target
  {
    var es := EdgesFrom(targets, i, w);
    forall k | 0 <= k < |es| ensures es[k].target < |targets| && targets[es[k].target] == w.targets[k] {
      assert w.targets[k] in targets;
    }
  }

  lemma CornersFit(vs: seq<VerseId>, route: Route)
    requires |vs| > 1 && !AnyExcluded(vs, route)
    ensures var targets := SortVerses(TargetsOver(vs, route));
            var es := CornerEdges(vs, targets, route);
            && (forall e :: e in es ==> (e.source == 0 || e.source == |vs| - 1) && e.target < |targets|)
            && (forall i, j :: 0 <= i < j < |es| ==> (es[i].source, es[i].target) != (es[j].source, es[j].target))
  {
    var targets := SortVerses(TargetsOver(vs, route));
    var first, last := vs[0], vs[|vs| - 1];
    TargetsListed(vs, route, first);
    TargetsListed(vs, route, last);
    TargetsOrdered(first, route);
    TargetsOrdered(last, route);
    EdgesFromFit(targets, 0, WalkOf(first, route));
    EdgesFromFit(targets, |vs| - 1, WalkOf(last, route));
  }

  /** Emit the connectors of both corners; a pair seen before is skipped, though none ever is. */
  method EmitCorners(sources: seq<VerseId>, targets: seq<VerseId>, route: Route) returns (edges: seq<HullEdge>)
    requires |sources| > 1 && !AnyExcluded(sources, route) && targets == SortVerses(TargetsOver(sources, route))
    ensures edges == CornerEdges(sources, targets, route)
  {
    ghost var all := CornerEdges(sources, targets, route);
    CornersFit(sources, route);
    var seen: set<(nat, nat)> := {};
    edges := [];
    var last := |sources| - 1;
    edges, seen := EmitCorner(0, WalkOf(sources[0], route), targets, edges, seen, all);
    assert edges == EdgesFrom(targets, 0, WalkOf(sources[0], route));
    edges, seen := EmitCorner(last, WalkOf(sources[last], route), targets, edges, seen, all);
  }

  method EmitCorner(i: nat, walk: ParticipantWalk, targets: seq<VerseId>, edges: seq<HullEdge>, seen: set<(nat, nat)>, ghost all: seq<HullEdge>)
    returns (edges': seq<HullEdge>, seen': set<(nat, nat)>)
    requires forall j, k :: 0 <= j < k < |all| ==> (all[j].source, all[j].target) != (all[k].source, all[k].target)
    requires edges + EdgesFrom(targets, i, walk) <= all
    requires forall pair :: pair in seen ==> exists k :: 0 <= k < |edges| && pair == (edges[k].source, edges[k].target)
    ensures edges' == edges + EdgesFrom(targets, i, walk)
    ensures forall pair :: pair in seen' ==> exists k :: 0 <= k < |edges'| && pair == (edges'[k].source, edges'[k].target)
  {
    edges', seen' := edges, seen;
    ghost var more := EdgesFrom(targets, i, walk);
    for n := 0 to |walk.targets|
      invariant edges' == edges + more[..n]
      invariant forall pair :: pair in seen' ==> exists k :: 0 <= k < |edges'| && pair == (edges'[k].source, edges'[k].target)
    {
      var edge := HullEdge(i, Position(targets, walk.targets[n]), Compose(walk.up, walk.down));
      assert edge == all[|edges| + n] && edges' == all[..|edges| + n];
      var pair := (edge.source, edge.target);
      assert pair !in seen';
      if pair in seen' {
        continue;
      }
      ghost var before := edges';
      edges', seen' := edges' + [edge], seen' + {pair};
      assert edges'[|before|] == edge;
      assert forall k :: 0 <= k < |before| ==> edges'[k] == before[k];
    }
  }

  method FinishRange(t: RangeTrigger, sources: seq<VerseId>, targets: seq<VerseId>, route: Route) returns (r: Option<Resolution>)
    requires |sources| > 1 && !AnyExcluded(sources, route) && targets == SortVerses(TargetsOver(sources, route))
    ensures r == RangeResult(t, sources, targets, route)
  {
    if targets == [] {
      return None;
    }
    var interior := InteriorRequiresComplex(t.side, InteriorWalks(sources, route));
    var corner := HasFanout(WalkOf(sources[0], route)) || HasFanout(WalkOf(sources[|sources| - 1], route));
    var escalates := corner || interior;
    if |sources| == |targets| && !escalates {
      return None;
    }
    var edges := EmitCorners(sources, targets, route);
    if !escalates {
      return Some(Resolution(sources, targets, Range, edges, None, None));
    }
    if t.side == OnSource {
      var down := DominantRelation(DownRelations(sources, route));
      return Some(Resolution(sources, targets, Complex, edges, Some(Range), AxisLabel(down)));
    }
    var up := DominantRelation(UpRelations(sources, route));
    return Some(Resolution(sources, targets, Complex, edges, AxisLabel(up), Some(Range)));
  }

  method BuildRangeHull(t: RangeTrigger, members: seq<VerseId>, route: Route) returns (r: Option<Resolution>)
    ensures r == RangeOutcome(t, members, route)
  {
    var participants := ParticipantsFor(t, route);
    var sources := SortVerses(participants);
    if |sources| < 2 {
      return None;
    }
    if exists m :: m in members && m !in sources {
      return None;
    }
    var walked := WalkAll(sources, route);
    if walked == None {
      return None;
    }
    r := FinishRange(t, sources, SortVerses(walked.value), route);
  }
}
