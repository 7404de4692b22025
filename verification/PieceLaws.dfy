/** Relations before classification: each is a piece of one component, and each component shows in its pieces. */
module PieceLaws {
  import opened Refs
  import opened Sorting
  import opened Options
  import opened Schemes
  import opened DisjointSets
  import opened Classification
  import opened Composition
  import opened ComponentLaws

  ghost function RelationOf(ord: BookOrder, a: Scheme, b: Scheme, org: Option<Scheme>, c: seq<Node>): Relation {
    var st := ScanBoth(ord, a, b, org);
    ComponentRelation(ord, c, st, Collisions(st.claims), a, b)
  }

  ghost function ComponentsOf(ord: BookOrder, a: Scheme, b: Scheme, org: Option<Scheme>): seq<seq<Node>> {
    Components(ScanBoth(ord, a, b, org).links, ScanBoth(ord, a, b, org).nodes)
  }

  /** What one component contributes to the relation list. */
  function PiecesOf(ord: BookOrder, r: Relation): seq<Relation> {
    if r.a == [] && r.b == [] then [] else SplitAlternates(ord, r)
  }

  ghost function RelationsOf(ord: BookOrder, a: Scheme, b: Scheme, org: Option<Scheme>, cs: seq<seq<Node>>): seq<Relation> {
    var st := ScanBoth(ord, a, b, org);
    ComponentRelations(ord, cs, st, Collisions(st.claims), a, b)
  }

  lemma RelationsSnoc(ord: BookOrder, a: Scheme, b: Scheme, org: Option<Scheme>, cs: seq<seq<Node>>)
    requires cs != []
    ensures RelationsOf(ord, a, b, org, cs)
            == RelationsOf(ord, a, b, org, cs[..|cs| - 1]) + PiecesOf(ord, RelationOf(ord, a, b, org, cs[|cs| - 1]))
  {
  }

  /** Components share no node. */
  lemma SharedNode(ord: BookOrder, a: Scheme, b: Scheme, org: Option<Scheme>, j: nat, k: nat, n: Node)
    requires var cs := ComponentsOf(ord, a, b, org); j < |cs| && k < |cs| && n in cs[j] && n in cs[k]
    ensures j == k
  {
    var st := ScanBoth(ord, a, b, org);
    ComponentsAreClasses(st.links, st.nodes);
    var cs := ComponentsOf(ord, a, b, org);
    assert n in Near(st.links, cs[j][0], st.nodes);
    var i := OneComponentEach(st.links, st.nodes, n);
  }

  /** Every relation is a piece of some component. */
  lemma {:induction false} PieceOrigin(ord: BookOrder, a: Scheme, b: Scheme, org: Option<Scheme>, cs: seq<seq<Node>>, p: Relation)
      returns (k: nat)
    requires p in RelationsOf(ord, a, b, org, cs)
    ensures k < |cs| && p in SplitAlternates(ord, RelationOf(ord, a, b, org, cs[k]))
  {
    RelationsSnoc(ord, a, b, org, cs);
    k := |cs| - 1;
    if p in RelationsOf(ord, a, b, org, cs[..|cs| - 1]) {
      k := PieceOrigin(ord, a, b, org, cs[..|cs| - 1], p);
    }
  }

  /** Every piece that lists a verse is a relation. */
  lemma {:induction false} PiecesListed(ord: BookOrder, a: Scheme, b: Scheme, org: Option<Scheme>, cs: seq<seq<Node>>, k: nat, p: Relation)
    requires k < |cs| && p in SplitAlternates(ord, RelationOf(ord, a, b, org, cs[k])) && (p.a != [] || p.b != [])
    ensures p in RelationsOf(ord, a, b, org, cs)
  {
    if k < |cs| - 1 {
      PiecesListed(ord, a, b, org, cs[..|cs| - 1], k, p);
    } else {
      PieceOfListed(ord, RelationOf(ord, a, b, org, cs[k]), p);
    }
    RelationsGrow(ord, a, b, org, cs, p);
  }

  lemma RelationsGrow(ord: BookOrder, a: Scheme, b: Scheme, org: Option<Scheme>, cs: seq<seq<Node>>, p: Relation)
    requires cs != []
    requires p in RelationsOf(ord, a, b, org, cs[..|cs| - 1]) || p in PiecesOf(ord, RelationOf(ord, a, b, org, cs[|cs| - 1]))
    ensures p in RelationsOf(ord, a, b, org, cs)
  {
    RelationsSnoc(ord, a, b, org, cs);
  }

  lemma PieceOfListed(ord: BookOrder, r: Relation, p: Relation)
    requires p in SplitAlternates(ord, r) && (p.a != [] || p.b != [])
    ensures p in PiecesOf(ord, r)
  {
    PieceWithin(ord, r, p);
    assert (p.a != [] ==> p.a[0] in p.a) && (p.b != [] ==> p.b[0] in p.b);
  }

  lemma PieceWithin(ord: BookOrder, r: Relation, p: Relation)
    requires p in SplitAlternates(ord, r)
    ensures (forall v :: v in p.a ==> v in r.a) && (forall v :: v in p.b ==> v in r.b)
  {
    SplitPieces(ord, r, p);
  }

  lemma ListedVerses(ord: BookOrder, a: Scheme, b: Scheme, org: Option<Scheme>, c: seq<Node>, v: Verse)
    ensures v in RelationOf(ord, a, b, org, c).a <==> Node(SideA, v) in c
    ensures v in RelationOf(ord, a, b, org, c).b <==> Node(SideB, v) in c
  {
    var key := (v: Verse) => VersePos(ord, v);
    SortMembers(SideVerses(c, SideA), key);
    SortMembers(SideVerses(c, SideB), key);
  }
}
