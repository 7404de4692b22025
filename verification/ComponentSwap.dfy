/** Exchanging the sides exchanges A and B in every component and changes nothing else. */
module ComponentSwap {
  import opened Refs
  import opened Sorting
  import opened Options
  import opened Schemes
  import opened DisjointSets
  import opened Classification
  import opened Composition
  import opened ComponentLaws
  import opened ScanLaws
  import opened SelfComparison

  function FlipSide(s: Side): Side {
    match s
    case SideA => SideB
    case SideB => SideA
    case SideO => SideO
  }

  function Flip(n: Node): Node {
    Node(FlipSide(n.side), n.verse)
  }

  /** `there` holds the links of `here` with the sides exchanged. */
  ghost predicate FlippedInto(here: set<Link>, there: set<Link>) {
    forall l :: l in here ==> (Flip(l.0), Flip(l.1)) in there
  }

  lemma LinksFlip(ord: BookOrder, a: Scheme, b: Scheme, org: Option<Scheme>)
    ensures FlippedInto(ScanBoth(ord, a, b, org).links, ScanBoth(ord, b, a, org).links)
  {
    ScanBothSides(ord, a, b, org);
    ScanBothSides(ord, b, a, org);
    forall l | l in ScanBoth(ord, a, b, org).links
      ensures (Flip(l.0), Flip(l.1)) in ScanBoth(ord, b, a, org).links
    {
      if l in SideLinks(org, SideA, a, Verses(ord, a)) {
        SideLinksRename(org, SideA, SideB, a, Verses(ord, a), l);
      } else {
        SideLinksRename(org, SideB, SideA, b, Verses(ord, b), l);
      }
    }
  }

  lemma ConnectedFlip(here: set<Link>, there: set<Link>, x: Node, y: Node)
    requires FlippedInto(here, there) && Connected(here, x, y)
    ensures Connected(there, Flip(x), Flip(y))
  {
    var p :| Path(here, p, x, y);
    var q := seq(|p|, i requires 0 <= i < |p| => Flip(p[i]));
    forall i, j | 0 <= i && j == i + 1 && j < |q| ensures Adjacent(there, q[i], q[j]) {
      assert Adjacent(here, p[i], p[j]);
      if (p[i], p[j]) in here {
        assert (Flip((p[i], p[j]).0), Flip((p[i], p[j]).1)) in there;
      } else {
        assert (Flip((p[j], p[i]).0), Flip((p[j], p[i]).1)) in there;
      }
    }
    assert Path(there, q, Flip(x), Flip(y));
  }

  lemma ConnectedFlipIff(ord: BookOrder, a: Scheme, b: Scheme, org: Option<Scheme>, x: Node, y: Node)
    ensures Connected(ScanBoth(ord, a, b, org).links, x, y)
            <==> Connected(ScanBoth(ord, b, a, org).links, Flip(x), Flip(y))
  {
    LinksFlip(ord, a, b, org);
    LinksFlip(ord, b, a, org);
    FlippedLinks(ScanBoth(ord, a, b, org).links, ScanBoth(ord, b, a, org).links, x, y);
  }

  lemma FlippedLinks(here: set<Link>, there: set<Link>, x: Node, y: Node)
    requires FlippedInto(here, there) && FlippedInto(there, here)
    ensures Connected(here, x, y) <==> Connected(there, Flip(x), Flip(y))
  {
    assert Flip(Flip(x)) == x && Flip(Flip(y)) == y;
    if Connected(here, x, y) {
      ConnectedFlip(here, there, x, y);
    }
    if Connected(there, Flip(x), Flip(y)) {
      ConnectedFlip(there, here, Flip(x), Flip(y));
    }
  }

  // ----- nodes -----

  /** Every node of a scan is one end of a link, and every end of a link is a node. */
  ghost predicate Spanned(st: Scan) {
    forall n :: n in st.nodes <==> exists l :: l in st.links && (n == l.0 || n == l.1)
  }

  lemma {:induction false} SpannedEdges(org: Option<Scheme>, st: Scan, side: Side, v: Verse, isDefault: bool, es: seq<Edge>)
    requires Spanned(st)
    ensures Spanned(ScanEdges(org, st, side, v, isDefault, es))
  {
    if es != [] {
      var init, e := es[..|es| - 1], es[|es| - 1];
      SpannedEdges(org, st, side, v, isDefault, init);
      SpannedEdge(org, ScanEdges(org, st, side, v, isDefault, init), side, v, isDefault, e);
    }
  }

  lemma SpannedEdge(org: Option<Scheme>, st: Scan, side: Side, v: Verse, isDefault: bool, e: Edge)
    requires Spanned(st)
    ensures Spanned(ScanEdge(org, st, side, v, isDefault, e))
  {
    var st' := ScanEdge(org, st, side, v, isDefault, e);
    var node, root := Node(side, v), Node(SideO, Canon(org, e.org));
    var link := (node, root);
    assert st'.links == st.links + {link};
    forall n ensures n in st'.nodes <==> n in st.nodes || n == node || n == root {
    }
    forall n ensures n in st'.nodes <==> exists l :: l in st'.links && (n == l.0 || n == l.1) {
      if n == node || n == root {
        assert link in st'.links;
      }
      if n in st.nodes {
        var l :| l in st.links && (n == l.0 || n == l.1);
        assert l in st'.links;
      }
    }
  }

  /** A verse's own node is on its first edge, so it makes no difference that the scan inserts it early. */
  lemma EarlyNode(org: Option<Scheme>, st: Scan, side: Side, v: Verse, isDefault: bool, es: seq<Edge>)
    requires es != []
    ensures ScanEdges(org, st.(nodes := Touch(st.nodes, Node(side, v))), side, v, isDefault, es)
            == ScanEdges(org, st, side, v, isDefault, es)
  {
    if |es| == 1 {
      assert es[..0] == [];
    } else {
      EarlyNode(org, st, side, v, isDefault, es[..|es| - 1]);
    }
  }

  lemma {:induction false} SpannedScan(org: Option<Scheme>, st: Scan, side: Side, s: Scheme, vs: seq<Verse>)
    requires Spanned(st)
    ensures Spanned(ScanVerses(org, st, side, s, vs))
  {
    if vs != [] {
      var init, v := vs[..|vs| - 1], vs[|vs| - 1];
      SpannedScan(org, st, side, s, init);
      var mid := ScanVerses(org, st, side, s, init);
      if TakesPart(s, v) {
        var (es, isDefault) := ToOrg(s, v);
        EarlyNode(org, mid, side, v, isDefault, es);
        SpannedEdges(org, mid, side, v, isDefault, es);
      }
    }
  }

  lemma NodesFlip(ord: BookOrder, a: Scheme, b: Scheme, org: Option<Scheme>, n: Node)
    requires n in ScanBoth(ord, a, b, org).nodes
    ensures Flip(n) in ScanBoth(ord, b, a, org).nodes
  {
    var st0 := Scan([], {}, map[], map[]);
    SpannedScan(org, st0, SideA, a, Verses(ord, a));
    SpannedScan(org, ScanVerses(org, st0, SideA, a, Verses(ord, a)), SideB, b, Verses(ord, b));
    SpannedScan(org, st0, SideA, b, Verses(ord, b));
    SpannedScan(org, ScanVerses(org, st0, SideA, b, Verses(ord, b)), SideB, a, Verses(ord, a));
    var here, there := ScanBoth(ord, a, b, org), ScanBoth(ord, b, a, org);
    assert Spanned(here) && Spanned(there);
    LinksFlip(ord, a, b, org);
    var l :| l in here.links && (n == l.0 || n == l.1);
    assert (Flip(l.0), Flip(l.1)) in there.links;
  }

  // ----- components -----

  /** The same component seen with the sides exchanged. */
  ghost predicate Exchanged(r: Relation, r': Relation) {
    && r'.a == r.b && r'.b == r.a
    && (forall v :: v in r'.o <==> v in r.o)
    && r'.flags == r.flags && r'.warn == r.warn
    && r'.codesA == r.codesB && r'.codesB == r.codesA
  }

  lemma PickFlips(ord: BookOrder, a: Scheme, b: Scheme, org: Option<Scheme>, h: Node, side: Side, vs: seq<Verse>)
    ensures Pick(ScanBoth(ord, a, b, org).links, h, side, vs)
            == Pick(ScanBoth(ord, b, a, org).links, Flip(h), FlipSide(side), vs)
  {
    forall v | v in vs
      ensures Connected(ScanBoth(ord, a, b, org).links, h, Node(side, v))
              <==> Connected(ScanBoth(ord, b, a, org).links, Flip(h), Node(FlipSide(side), v))
    {
      ConnectedFlipIff(ord, a, b, org, h, Node(side, v));
    }
    PickSame(ScanBoth(ord, a, b, org).links, h, side, ScanBoth(ord, b, a, org).links, Flip(h), FlipSide(side), vs);
  }

  lemma NearFrom(links: set<Link>, h: Node, g: Node, nodes: seq<Node>)
    requires Connected(links, h, g)
    ensures Near(links, h, nodes) == Near(links, g, nodes)
  {
    if nodes != [] {
      var n := nodes[|nodes| - 1];
      NearFrom(links, h, g, nodes[..|nodes| - 1]);
      if Connected(links, g, n) {
        ConnectedTrans(links, h, g, n);
      }
      if Connected(links, h, n) {
        ConnectedSym(links, h, g);
        ConnectedTrans(links, g, h, n);
      }
    }
  }

  /** The component of a node is everything connected to it. */
  lemma ComponentOf(links: set<Link>, nodes: seq<Node>, n: Node) returns (c: seq<Node>)
    requires n in nodes
    ensures c in Components(links, nodes) && c == Near(links, n, nodes)
  {
    ComponentsAreClasses(links, nodes);
    var k := OneComponentEach(links, nodes, n);
    c := Components(links, nodes)[k];
    assert n in c && c == Near(links, c[0], nodes);
    NearFrom(links, c[0], n, nodes);
  }

  lemma NearFlips(ord: BookOrder, a: Scheme, b: Scheme, org: Option<Scheme>, h: Node, side: Side)
    requires side != SideO
    ensures var here, there := ScanBoth(ord, a, b, org), ScanBoth(ord, b, a, org);
            SideVerses(Near(there.links, Flip(h), there.nodes), FlipSide(side))
            == SideVerses(Near(here.links, h, here.nodes), side)
  {
    var here, there := ScanBoth(ord, a, b, org), ScanBoth(ord, b, a, org);
    ScanBothSides(ord, a, b, org);
    ScanBothSides(ord, b, a, org);
    SideOfNear(here.links, h, here.nodes, side);
    SideOfNear(there.links, Flip(h), there.nodes, FlipSide(side));
    PickFlips(ord, a, b, org, h, side, SideVerses(here.nodes, side));
  }

  lemma NearRootsFlip(ord: BookOrder, a: Scheme, b: Scheme, org: Option<Scheme>, h: Node, v: Verse)
    ensures var here, there := ScanBoth(ord, a, b, org), ScanBoth(ord, b, a, org);
            v in SideVerses(Near(there.links, Flip(h), there.nodes), SideO)
            <==> v in SideVerses(Near(here.links, h, here.nodes), SideO)
  {
    var here, there := ScanBoth(ord, a, b, org), ScanBoth(ord, b, a, org);
    var n := Node(SideO, v);
    ConnectedFlipIff(ord, a, b, org, h, n);
    if n in here.nodes {
      NodesFlip(ord, a, b, org, n);
    }
    if n in there.nodes {
      NodesFlip(ord, b, a, org, n);
    }
  }

  /** `c'` holds the nodes of `c` with the sides exchanged. */
  ghost predicate FlippedComponent(c: seq<Node>, c': seq<Node>) {
    c != [] && forall n :: n in c <==> Flip(n) in c'
  }

  /** The component of `b` against `a` that mirrors a component of `a` against `b`. */
  lemma MirrorComponent(ord: BookOrder, a: Scheme, b: Scheme, org: Option<Scheme>, c: seq<Node>) returns (c': seq<Node>)
    requires c in Components(ScanBoth(ord, a, b, org).links, ScanBoth(ord, a, b, org).nodes)
    ensures c' in Components(ScanBoth(ord, b, a, org).links, ScanBoth(ord, b, a, org).nodes)
    ensures SideVerses(c', SideA) == SideVerses(c, SideB) && SideVerses(c', SideB) == SideVerses(c, SideA)
    ensures forall v :: v in SideVerses(c', SideO) <==> v in SideVerses(c, SideO)
    ensures FlippedComponent(c, c')
  {
    var here, there := ScanBoth(ord, a, b, org), ScanBoth(ord, b, a, org);
    ComponentsAreClasses(here.links, here.nodes);
    var h := c[0];
    assert c == Near(here.links, h, here.nodes) && h in c;
    NodesFlip(ord, a, b, org, h);
    c' := ComponentOf(there.links, there.nodes, Flip(h));
    NearFlips(ord, a, b, org, h, SideA);
    NearFlips(ord, a, b, org, h, SideB);
    forall v ensures v in SideVerses(c', SideO) <==> v in SideVerses(c, SideO) {
      NearRootsFlip(ord, a, b, org, h, v);
    }
    SidesFlip(c, c');
  }

  lemma SidesFlip(c: seq<Node>, c': seq<Node>)
    requires c != []
    requires SideVerses(c', SideA) == SideVerses(c, SideB) && SideVerses(c', SideB) == SideVerses(c, SideA)
    requires forall v :: v in SideVerses(c', SideO) <==> v in SideVerses(c, SideO)
    ensures FlippedComponent(c, c')
  {
    forall n ensures n in c <==> Flip(n) in c' {
      assert Node(n.side, n.verse) == n;
      assert n in c <==> n.verse in SideVerses(c, n.side);
      assert Flip(n) in c' <==> n.verse in SideVerses(c', FlipSide(n.side));
    }
  }

  lemma {:induction false} FlagUnionSame(f: map<Node, set<Flag>>, x: Side, g: map<Node, set<Flag>>, y: Side, vs: seq<Verse>)
    requires forall v :: FlagsOf(f, Node(x, v)) == FlagsOf(g, Node(y, v))
    ensures FlagUnion(f, x, vs) == FlagUnion(g, y, vs)
  {
    if vs != [] {
      FlagUnionSame(f, x, g, y, vs[..|vs| - 1]);
    }
  }

  lemma {:induction false} CodeUnionSame(s: Scheme, x: Side, f: set<Node>, y: Side, g: set<Node>, vs: seq<Verse>)
    requires forall v :: Node(x, v) in f <==> Node(y, v) in g
    ensures CodeUnion(s, x, f, vs) == CodeUnion(s, y, g, vs)
  {
    if vs != [] {
      CodeUnionSame(s, x, f, y, g, vs[..|vs| - 1]);
    }
  }

  /**
   * Exchanging the sides maps every component to one with A and B exchanged: same verses in the same
   * order, same root verses, same flags and warning, codes exchanged.
   */
  lemma ComponentsExchange(ord: BookOrder, a: Scheme, b: Scheme, org: Option<Scheme>, c: seq<Node>) returns (c': seq<Node>)
    requires c in Components(ScanBoth(ord, a, b, org).links, ScanBoth(ord, a, b, org).nodes)
    ensures c' in Components(ScanBoth(ord, b, a, org).links, ScanBoth(ord, b, a, org).nodes)
    ensures FlippedComponent(c, c')
    ensures var here, there := ScanBoth(ord, a, b, org), ScanBoth(ord, b, a, org);
            Exchanged(ComponentRelation(ord, c, here, Collisions(here.claims), a, b),
                      ComponentRelation(ord, c', there, Collisions(there.claims), b, a))
  {
    c' := MirrorComponent(ord, a, b, org, c);
    var here, there := ScanBoth(ord, a, b, org), ScanBoth(ord, b, a, org);
    var f, g := Collisions(here.claims), Collisions(there.claims);
    forall v ensures FlagsOf(here.flags, Node(SideA, v)) == FlagsOf(there.flags, Node(SideB, v))
                  && FlagsOf(here.flags, Node(SideB, v)) == FlagsOf(there.flags, Node(SideA, v)) {
      ScanBothFlags(ord, a, b, org, v);
      ScanBothFlags(ord, b, a, org, v);
    }
    forall v ensures (Node(SideA, v) in f <==> Node(SideB, v) in g) && (Node(SideB, v) in f <==> Node(SideA, v) in g) {
      ScanBothCollisions(ord, a, b, org, v);
      ScanBothCollisions(ord, b, a, org, v);
    }
    SameSummary(ord, c, c', here, there, f, g, a, b);
  }

  lemma SameSummary(ord: BookOrder, c: seq<Node>, c': seq<Node>, here: Scan, there: Scan, f: set<Node>, g: set<Node>, a: Scheme, b: Scheme)
    requires SideVerses(c', SideA) == SideVerses(c, SideB) && SideVerses(c', SideB) == SideVerses(c, SideA)
    requires forall v :: v in SideVerses(c', SideO) <==> v in SideVerses(c, SideO)
    requires forall v :: FlagsOf(here.flags, Node(SideA, v)) == FlagsOf(there.flags, Node(SideB, v))
    requires forall v :: FlagsOf(here.flags, Node(SideB, v)) == FlagsOf(there.flags, Node(SideA, v))
    requires forall v :: Node(SideA, v) in f <==> Node(SideB, v) in g
    requires forall v :: Node(SideB, v) in f <==> Node(SideA, v) in g
    ensures Exchanged(ComponentRelation(ord, c, here, f, a, b), ComponentRelation(ord, c', there, g, b, a))
  {
    var r, r' := ComponentRelation(ord, c, here, f, a, b), ComponentRelation(ord, c', there, g, b, a);
    assert r'.a == r.b && r'.b == r.a;
    FlagUnionSame(here.flags, SideA, there.flags, SideB, r.a);
    FlagUnionSame(here.flags, SideB, there.flags, SideA, r.b);
    CodeUnionSame(a, SideA, f, SideB, g, r.a);
    CodeUnionSame(b, SideB, f, SideA, g, r.b);
    var key := (v: Verse) => VersePos(ord, v);
    SortMembers(SideVerses(c, SideO), key);
    SortMembers(SideVerses(c', SideO), key);
  }
}
