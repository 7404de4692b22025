/** Atomic relations between coordinates: inverse, composition along a path, dominance. */
module RelationAlgebra {
  import opened Options

  datatype Relation = Exclude | Merge | Split | Renumber | Shift | Partial | OneToOne

  /** Structural priority; smaller wins. */
  function Rank(r: Relation): nat {
    match r
    case Exclude => 0
    case Merge => 1
    case Split => 2
    case Renumber => 3
    case Shift => 4
    case Partial => 5
    case OneToOne => 6
  }

  /** The relation of the same row read downward. */
  function Invert(r: Relation): Relation {
    match r
    case Split => Merge
    case Merge => Split
    case _ => r
  }

  predicate Cancels(l: Relation, r: Relation) {
    (l == Split && r == Merge) || (l == Merge && r == Split)
  }

  function Compose(l: Relation, r: Relation): Relation {
    if l == OneToOne then r
    else if r == OneToOne then l
    else if l == Exclude || r == Exclude then Exclude
    else if Cancels(l, r) then OneToOne
    else if l == r then l
    else if Rank(l) <= Rank(r) then l
    else r
  }

  /** The order of two legs does not matter, and nothing undoes an exclusion. */
  lemma ComposeLaws(l: Relation, r: Relation)
    ensures Compose(l, r) == Compose(r, l)
    ensures Compose(l, r) == Exclude <==> l == Exclude || r == Exclude
  {
  }

  /** A split and a merge meet first on one side of the middle leg only, and the third leg is then exposed. */
  predicate Regroups(x: Relation, y: Relation, z: Relation) {
    || (Cancels(x, y) && !Cancels(y, z) && z != Exclude && z != OneToOne)
    || (Cancels(y, z) && !Cancels(x, y) && x != Exclude && x != OneToOne)
  }

  /** Grouping of three legs matters in exactly these cases. */
  lemma GroupingMattersIff(x: Relation, y: Relation, z: Relation)
    ensures Compose(Compose(x, y), z) != Compose(x, Compose(y, z)) <==> Regroups(x, y, z)
  {
    if x == OneToOne || y == OneToOne || z == OneToOne {
    } else if x == Exclude || y == Exclude || z == Exclude {
      ComposeLaws(x, y);
      ComposeLaws(y, z);
      ComposeLaws(Compose(x, y), z);
      ComposeLaws(x, Compose(y, z));
    } else if y == Split || y == Merge {
      GroupingRanked(x, y, z);
    } else {
      GroupingPlain(x, y, z);
    }
  }

  predicate Proper(r: Relation) {
    r != OneToOne && r != Exclude
  }

  lemma GroupingRanked(x: Relation, y: Relation, z: Relation)
    requires Proper(x) && Proper(z) && (y == Split || y == Merge)
    ensures Compose(Compose(x, y), z) != Compose(x, Compose(y, z)) <==> Regroups(x, y, z)
  {
    if y == Split {
      match x
      case Merge =>
      case Split =>
      case _ =>
    } else {
      match x
      case Merge =>
      case Split =>
      case _ =>
    }
  }

  lemma GroupingPlain(x: Relation, y: Relation, z: Relation)
    requires Proper(x) && Proper(y) && Proper(z) && y != Split && y != Merge
    ensures Compose(Compose(x, y), z) == Compose(x, Compose(y, z))
  {
    if x == Split || x == Merge {
      assert Compose(x, y) == x;
    } else if z == Split || z == Merge {
      assert Compose(y, z) == z;
    }
  }

  // ----- whole paths -----

  /** The relation of a path, leg by leg. */
  function Path(rs: seq<Relation>): Relation {
    if rs == [] then OneToOne else Compose(Path(rs[..|rs| - 1]), rs[|rs| - 1])
  }

  /** `best` is the strongest relation other than identity, or none when there is only identity. */
  ghost predicate Dominates(rs: seq<Relation>, best: Option<Relation>) {
    match best
    case None => forall r :: r in rs ==> r == OneToOne
    case Some(b) => b in rs && b != OneToOne && forall r :: r in rs ==> Rank(b) <= Rank(r)
  }

  function Dominant(rs: seq<Relation>): Option<Relation> {
    if rs == [] then None
    else
      var best, last := Dominant(rs[..|rs| - 1]), rs[|rs| - 1];
      if last != OneToOne && (best.None? || Rank(last) < Rank(best.value)) then Some(last) else best
  }

  lemma {:induction false} DominantDominates(rs: seq<Relation>)
    ensures Dominates(rs, Dominant(rs))
  {
    if rs != [] {
      DominantDominates(rs[..|rs| - 1]);
      assert rs == rs[..|rs| - 1] + [rs[|rs| - 1]];
    }
  }

  method DominantRelation(rs: seq<Relation>) returns (best: Option<Relation>)
    ensures best == Dominant(rs)
  {
    best := None;
    var bestRank := 7;
    for i := 0 to |rs|
      invariant best == Dominant(rs[..i])
      invariant bestRank == if best.Some? then Rank(best.value) else 7
    {
      assert rs[..i + 1][..i] == rs[..i];
      if rs[i] == OneToOne {
        continue;
      }
      if Rank(rs[i]) < bestRank {
        best, bestRank := Some(rs[i]), Rank(rs[i]);
      }
    }
    assert rs[..|rs|] == rs;
  }

  lemma RankInjective(l: Relation, r: Relation)
    ensures Rank(l) == Rank(r) <==> l == r
  {
  }

  lemma DominantUnique(rs: seq<Relation>, best: Option<Relation>, other: Option<Relation>)
    requires Dominates(rs, best) && Dominates(rs, other)
    ensures best == other
  {
    if best.Some? && other.Some? {
      RankInjective(best.value, other.value);
    }
  }

  lemma {:induction false} PathExcludes(rs: seq<Relation>)
    ensures Path(rs) == Exclude <==> Exclude in rs
  {
    if rs != [] {
      var init := rs[..|rs| - 1];
      PathExcludes(init);
      assert rs == init + [rs[|rs| - 1]];
    }
  }

  lemma {:induction false} PathDominated(rs: seq<Relation>, best: Option<Relation>)
    requires Exclude in rs || !(Split in rs && Merge in rs)
    requires Dominates(rs, best)
    ensures Path(rs) == if best.Some? then best.value else OneToOne
  {
    if Exclude in rs {
      PathExcludes(rs);
      RankInjective(best.value, Exclude);
    } else if rs != [] {
      var init, last := rs[..|rs| - 1], rs[|rs| - 1];
      assert rs == init + [last];
      if Dominates(init, None) {
        PathDominated(init, None);
        assert best == if last == OneToOne then None else Some(last) by {
          if last != OneToOne {
            assert Dominates(rs, Some(last));
            DominantUnique(rs, best, Some(last));
          }
        }
      } else if best.Some? && best.value in init {
        PathDominated(init, best);
        RankInjective(best.value, last);
      } else {
        var r :| r in init && r != OneToOne;
        assert r in rs;
        assert best.value == last;
        PathStep(init, last);
      }
    }
  }

  lemma {:induction false} PathMember(rs: seq<Relation>)
    requires !(Split in rs && Merge in rs)
    ensures Path(rs) == OneToOne || Path(rs) in rs
  {
    if rs != [] {
      var init := rs[..|rs| - 1];
      assert rs == init + [rs[|rs| - 1]];
      PathMember(init);
    }
  }

  lemma PathStep(init: seq<Relation>, last: Relation)
    requires !(Split in init + [last] && Merge in init + [last]) && last != OneToOne
    requires forall r :: r in init ==> Rank(last) <= Rank(r)
    ensures Path(init + [last]) == last
  {
    assert (init + [last])[..|init|] == init;
    PathMember(init);
    RankInjective(Path(init), last);
  }

  /** Along a path, leg-by-leg composition is the dominant relation unless an unexcluded path both splits and merges. */
  lemma PathIsDominant(rs: seq<Relation>)
    requires Exclude in rs || !(Split in rs && Merge in rs)
    ensures Path(rs) == if Dominant(rs).Some? then Dominant(rs).value else OneToOne
  {
    DominantDominates(rs);
    PathDominated(rs, Dominant(rs));
  }
}
