/** Walking verses through a chain of hops. */
module Walking {
  import opened Options
  import opened Coordinates
  import opened RelationAlgebra
  import opened Cover
  import opened VerseOrder

  /** The mapping rows of one scheme on the chain. */
  type Hop = seq<Row>

  datatype Walk = Walk(verses: seq<VerseId>, relation: Relation, excluded: bool, siblings: seq<VerseId>)

  /** Send a list of verses through one hop, composing relations in list order. */
  function CrossVerses(vs: seq<VerseId>, hop: Hop, upward: bool, relation: Relation): Walk {
    if vs == [] then Walk([], relation, false, [])
    else
      var w := CrossVerses(vs[..|vs| - 1], hop, upward, relation);
      var p := ProjectVerse(vs[|vs| - 1], hop, upward);
      Walk(w.verses + p.verses, Compose(w.relation, p.relation), w.excluded || p.excluded, w.siblings + p.siblings)
  }

  function CrossHop(w: Walk, hop: Hop, upward: bool): Walk {
    var c := CrossVerses(w.verses, hop, upward, w.relation);
    Walk(SortVerses(c.verses), c.relation, w.excluded || c.excluded, w.siblings + c.siblings)
  }

  function WalkHops(vs: seq<VerseId>, hops: seq<Hop>, upward: bool): Walk {
    if hops == [] then Walk(vs, OneToOne, false, [])
    else CrossHop(WalkHops(vs, hops[..|hops| - 1], upward), hops[|hops| - 1], upward)
  }

  /** Once every verse is gone the remaining hops change nothing. */
  lemma {:induction false} EmptyStays(vs: seq<VerseId>, hops: seq<Hop>, upward: bool, n: nat)
    requires n <= |hops| && WalkHops(vs, hops[..n], upward).verses == []
    ensures WalkHops(vs, hops, upward) == WalkHops(vs, hops[..n], upward)
  {
    if n == |hops| {
      assert hops[..n] == hops;
    } else {
      var init := hops[..|hops| - 1];
      assert init[..n] == hops[..n];
      EmptyStays(vs, init, upward, n);
    }
  }

  /** One hop of the loops below. */
  method CrossOne(current: seq<VerseId>, hop: Hop, upward: bool, relation: Relation)
    returns (next: seq<VerseId>, relation': Relation, excluded: bool, siblings: seq<VerseId>)
    ensures Walk(next, relation', excluded, siblings) == CrossVerses(current, hop, upward, relation)
  {
    next, relation', excluded, siblings := [], relation, false, [];
    for i := 0 to |current|
      invariant Walk(next, relation', excluded, siblings) == CrossVerses(current[..i], hop, upward, relation)
    {
      assert current[..i + 1][..i] == current[..i];
      var projection := ProjectVerse(current[i], hop, upward);
      ProjectionShape(current[i], hop, upward);
      relation' := Compose(relation', projection.relation);
      if projection.excluded {
        excluded := true;
        continue;
      }
      next := next + projection.verses;
      if projection.siblings != [] {
        siblings := siblings + projection.siblings;
      }
    }
    assert current[..|current|] == current;
  }

  /** The walk so far is the walk over the first `n` hops. */
  ghost predicate Crossed(w: Walk, vs: seq<VerseId>, hops: seq<Hop>, upward: bool, n: int) {
    0 <= n <= |hops| && w == WalkHops(vs, hops[..n], upward)
  }

  lemma CrossedStep(w: Walk, vs: seq<VerseId>, hops: seq<Hop>, upward: bool, n: int)
    requires Crossed(w, vs, hops, upward, n) && n < |hops|
    ensures Crossed(CrossHop(w, hops[n], upward), vs, hops, upward, n + 1)
  {
    assert hops[..n + 1][..n] == hops[..n];
  }

  lemma CrossedAll(w: Walk, vs: seq<VerseId>, hops: seq<Hop>, upward: bool, n: int)
    requires Crossed(w, vs, hops, upward, n) && (n == |hops| || w.verses == [])
    ensures w == WalkHops(vs, hops, upward)
  {
    if n == |hops| {
      assert hops[..n] == hops;
    } else {
      EmptyStays(vs, hops, upward, n);
    }
  }

  method StepHop(current: seq<VerseId>, relation: Relation, excluded: bool, siblings: seq<VerseId>, hop: Hop, upward: bool)
    returns (current': seq<VerseId>, relation': Relation, excluded': bool, siblings': seq<VerseId>)
    ensures Walk(current', relation', excluded', siblings') == CrossHop(Walk(current, relation, excluded, siblings), hop, upward)
  {
    var next, after, gone, more := CrossOne(current, hop, upward, relation);
    current', relation', excluded', siblings' := SortVerses(next), after, excluded || gone, siblings + more;
  }

  /** Climb; also returns the siblings merges gathered on the way. */
  method ApplyHopsForward(verses: seq<VerseId>, hops: seq<Hop>)
    returns (current: seq<VerseId>, relation: Relation, excluded: bool, siblings: seq<VerseId>)
    ensures var w := WalkHops(verses, hops, true);
            current == w.verses && relation == w.relation && excluded == w.excluded && siblings == SortVerses(w.siblings)
  {
    current, relation, excluded, siblings := verses, OneToOne, false, [];
    var n := 0;
    while n < |hops|
      invariant Crossed(Walk(current, relation, excluded, siblings), verses, hops, true, n)
    {
      CrossedStep(Walk(current, relation, excluded, siblings), verses, hops, true, n);
      current, relation, excluded, siblings := StepHop(current, relation, excluded, siblings, hops[n], true);
      n := n + 1;
      if excluded && current == [] {
        break;
      }
    }
    CrossedAll(Walk(current, relation, excluded, siblings), verses, hops, true, n);
    siblings := SortVerses(siblings);
  }

  method ApplyHopsDownward(verses: seq<VerseId>, hops: seq<Hop>)
    returns (current: seq<VerseId>, relation: Relation, excluded: bool)
    ensures var w := WalkHops(verses, hops, false);
            current == w.verses && relation == w.relation && excluded == w.excluded
  {
    current, relation, excluded := verses, OneToOne, false;
    var siblings: seq<VerseId> := [];
    var n := 0;
    while n < |hops|
      invariant Crossed(Walk(current, relation, excluded, siblings), verses, hops, false, n)
    {
      CrossedStep(Walk(current, relation, excluded, siblings), verses, hops, false, n);
      current, relation, excluded, siblings := StepHop(current, relation, excluded, siblings, hops[n], false);
      n := n + 1;
      if excluded && current == [] {
        break;
      }
    }
    CrossedAll(Walk(current, relation, excluded, siblings), verses, hops, false, n);
  }

  // ----- neighbour sets of the hull -----

  function Ascend(v: VerseId, hops: seq<Hop>): Walk {
    WalkHops([v], hops, true)
  }

  function Descend(v: VerseId, hops: seq<Hop>): Walk {
    WalkHops([v], hops, false)
  }

  function Reversed(hops: seq<Hop>): (r: seq<Hop>)
    ensures |r| == |hops|
    ensures forall hop :: hop in r <==> hop in hops
  {
    if hops == [] then [] else [hops[|hops| - 1]] + Reversed(hops[..|hops| - 1])
  }

  /** Nothing when any branch was excluded. */
  function Arrivals(w: Walk): seq<VerseId> {
    if w.excluded then [] else w.verses
  }

  function Reached(w: Walk): set<VerseId> {
    set v | v in Arrivals(w)
  }

  function UpSet(v: VerseId, hops: seq<Hop>): set<VerseId> {
    Reached(Ascend(v, hops))
  }

  function DownSet(v: VerseId, hops: seq<Hop>): set<VerseId> {
    Reached(Descend(v, hops))
  }

  function SrcOfPivot(pivot: VerseId, hops: seq<Hop>): set<VerseId> {
    DownSet(pivot, Reversed(hops))
  }

  function PivOfTarget(target: VerseId, hops: seq<Hop>): set<VerseId> {
    UpSet(target, Reversed(hops))
  }

  // ----- what a walk keeps -----

  /** All verses name the same part. */
  predicate OfPart(vs: seq<VerseId>, part: Option<string>) {
    forall v :: v in vs ==> v.part == part
  }

  lemma {:induction false} CrossShape(vs: seq<VerseId>, hop: Hop, upward: bool, relation: Relation, part: Option<string>)
    requires OfPart(vs, part)
    ensures var c := CrossVerses(vs, hop, upward, relation);
            && OfPart(c.verses, part) && OfPart(c.siblings, part)
            && (c.relation == Exclude <==> relation == Exclude || c.excluded)
            && (c.verses == [] ==> c.excluded || vs == [])
  {
    if vs != [] {
      var init, last := vs[..|vs| - 1], vs[|vs| - 1];
      assert last in vs && forall v :: v in init ==> v in vs;
      CrossShape(init, hop, upward, relation, part);
      ProjectionShape(last, hop, upward);
      var c := CrossVerses(init, hop, upward, relation);
      ComposeLaws(c.relation, ProjectVerse(last, hop, upward).relation);
    }
  }

  /** A walk keeps the part, contributes `Exclude` exactly when some branch was excluded, and only then can lose all verses. */
  lemma {:induction false} WalkShape(vs: seq<VerseId>, hops: seq<Hop>, upward: bool, part: Option<string>)
    requires OfPart(vs, part)
    ensures var w := WalkHops(vs, hops, upward);
            && OfPart(w.verses, part) && OfPart(w.siblings, part)
            && (w.relation == Exclude <==> w.excluded)
            && (w.verses == [] ==> w.excluded || vs == [])
  {
    if hops != [] {
      var w := WalkHops(vs, hops[..|hops| - 1], upward);
      WalkShape(vs, hops[..|hops| - 1], upward, part);
      CrossShape(w.verses, hops[|hops| - 1], upward, w.relation, part);
      var c := CrossVerses(w.verses, hops[|hops| - 1], upward, w.relation);
      assert c.verses != [] ==> c.verses[0] in SortVerses(c.verses);
    }
  }

  ghost predicate DerivedHops(hops: seq<Hop>) {
    forall hop, row :: hop in hops && row in hop ==> Derived(row)
  }

  lemma {:induction false} CrossDown(vs: seq<VerseId>, hop: Hop, relation: Relation)
    requires forall row :: row in hop ==> Derived(row)
    ensures !CrossVerses(vs, hop, false, relation).excluded
  {
    if vs != [] {
      CrossDown(vs[..|vs| - 1], hop, relation);
      DescentNeverExcludes(vs[|vs| - 1], hop);
    }
  }

  /** A descent through derived rows excludes nothing, so it always arrives somewhere. */
  lemma {:induction false} DescentArrives(v: VerseId, hops: seq<Hop>)
    requires DerivedHops(hops)
    ensures !Descend(v, hops).excluded && Descend(v, hops).verses != []
  {
    WalkShape([v], hops, false, v.part);
    if hops != [] {
      var init, hop := hops[..|hops| - 1], hops[|hops| - 1];
      assert hop in hops && forall h :: h in init ==> h in hops;
      DescentArrives(v, init);
      CrossDown(Descend(v, init).verses, hop, Descend(v, init).relation);
    }
  }
}
