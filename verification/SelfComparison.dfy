/** A scheme compared with itself through any root shows no divergence. */
module SelfComparison {
  import opened Refs
  import opened Sorting
  import opened Options
  import opened Schemes
  import opened DisjointSets
  import opened Classification
  import opened Composition
  import opened ComponentLaws
  import opened ScanLaws
  import Lis

  /** The verses of one side that are connected to `h`. */
  ghost function Pick(links: set<Link>, h: Node, side: Side, vs: seq<Verse>): seq<Verse> {
    if vs == [] then []
    else
      var v := vs[|vs| - 1];
      Pick(links, h, side, vs[..|vs| - 1]) + (if Connected(links, h, Node(side, v)) then [v] else [])
  }

  lemma {:induction false} SideOfNear(links: set<Link>, h: Node, nodes: seq<Node>, side: Side)
    ensures SideVerses(Near(links, h, nodes), side) == Pick(links, h, side, SideVerses(nodes, side))
  {
    if nodes != [] {
      var init, n := nodes[..|nodes| - 1], nodes[|nodes| - 1];
      SideOfNear(links, h, init, side);
      var near, vs := Near(links, h, init), SideVerses(init, side);
      assert Node(n.side, n.verse) == n;
      var near', vs' := Near(links, h, nodes), SideVerses(nodes, side);
      if Connected(links, h, n) {
        assert near' == near + [n] && near'[..|near'| - 1] == near;
      } else {
        assert near' == near;
      }
      if n.side == side {
        assert vs' == vs + [n.verse] && vs'[..|vs'| - 1] == vs;
      } else {
        assert vs' == vs;
      }
    }
  }

  lemma {:induction false} PickSame(links: set<Link>, h: Node, x: Side, links': set<Link>, h': Node, y: Side, vs: seq<Verse>)
    requires forall v :: v in vs ==> (Connected(links, h, Node(x, v)) <==> Connected(links', h', Node(y, v)))
    ensures Pick(links, h, x, vs) == Pick(links', h', y, vs)
  {
    if vs != [] {
      PickSame(links, h, x, links', h', y, vs[..|vs| - 1]);
    }
  }

  /** Two nodes linked to one root verse are connected to the same nodes. */
  lemma SharedRoot(links: set<Link>, h: Node, x: Node, y: Node, root: Node)
    requires (x, root) in links && (y, root) in links
    ensures Connected(links, h, x) <==> Connected(links, h, y)
  {
    ConnectedLink(links, x, root);
    ConnectedLink(links, root, y);
    ConnectedTrans(links, x, root, y);
    ConnectedSym(links, x, y);
    if Connected(links, h, x) {
      ConnectedTrans(links, h, x, y);
    }
    if Connected(links, h, y) {
      ConnectedTrans(links, h, y, x);
    }
  }

  lemma ComponentMirrors(ord: BookOrder, s: Scheme, org: Option<Scheme>, c: seq<Node>)
    requires c in Components(ScanBoth(ord, s, s, org).links, ScanBoth(ord, s, s, org).nodes)
    ensures SideVerses(c, SideA) == SideVerses(c, SideB)
  {
    var st := ScanBoth(ord, s, s, org);
    var vs := Verses(ord, s);
    ComponentsAreClasses(st.links, st.nodes);
    ScanBothSides(ord, s, s, org);
    var h := c[0];
    assert c == Near(st.links, h, st.nodes);
    SideOfNear(st.links, h, st.nodes, SideA);
    SideOfNear(st.links, h, st.nodes, SideB);
    var both := Participants([], s, vs);
    forall v | v in both
      ensures Connected(st.links, h, Node(SideA, v)) <==> Connected(st.links, h, Node(SideB, v))
    {
      ParticipantLinked(org, SideA, s, vs, v);
      ParticipantLinked(org, SideB, s, vs, v);
      SharedRoot(st.links, h, Node(SideA, v), Node(SideB, v), Node(SideO, Canon(org, ToOrg(s, v).0[0].org)));
    }
    PickSame(st.links, h, SideA, st.links, h, SideB, both);
  }

  /** Both sides list the same verses, all of one book. */
  ghost predicate Mirror(r: Relation) {
    r.a == r.b && forall v, w :: v in r.a && w in r.a ==> v.book == w.book
  }

  lemma OneBook(vs: seq<Verse>)
    requires |BookList(vs)| <= 1
    ensures forall v, w :: v in vs && w in vs ==> v.book == w.book
  {
    forall v, w | v in vs && w in vs ensures v.book == w.book {
      assert v.book in BookList(vs) && w.book in BookList(vs);
    }
  }

  lemma {:induction false} NoneOutside(vs: seq<Verse>, books: set<string>)
    requires forall v :: v in vs ==> v.book in books
    ensures OutsideBooks(vs, books) == []
  {
    if vs != [] {
      NoneOutside(vs[1..], books);
    }
  }

  lemma PiecesMirror(r: Relation, books: seq<string>)
    requires r.a == r.b
    ensures forall p :: p in PiecesByCommonBook(r, books) ==> Mirror(p)
  {
    forall k | 0 <= k < |books| ensures Mirror(PiecesByCommonBook(r, books)[k]) {
      assert PiecesByCommonBook(r, books)[k].a == OfBook(r.a, books[k]);
    }
  }

  lemma SplitMirrors(ord: BookOrder, r: Relation)
    requires r.a == r.b
    ensures forall p :: p in SplitAlternates(ord, r) ==> Mirror(p)
  {
    var books := BookList(r.a);
    if |books| <= 1 {
      OneBook(r.a);
    } else {
      assert books[0] in BookSet(r.a);
      var common := BookSet(r.a) * BookSet(r.b);
      NoneOutside(r.a, common);
      var kept := Sorted(ord, KeepBooks(books, common));
      assert SplitAlternates(ord, r) == PiecesByCommonBook(r, kept);
      PiecesMirror(r, kept);
    }
  }

  lemma {:induction false} ComposedMirrors(ord: BookOrder, cs: seq<seq<Node>>, st: Scan, collide: set<Node>, s: Scheme)
    requires forall c :: c in cs ==> SideVerses(c, SideA) == SideVerses(c, SideB)
    ensures forall r :: r in ComponentRelations(ord, cs, st, collide, s, s) ==> Mirror(r)
  {
    if cs != [] {
      ComposedMirrors(ord, cs[..|cs| - 1], st, collide, s);
      SplitMirrors(ord, ComponentRelation(ord, cs[|cs| - 1], st, collide, s, s));
    }
  }

  lemma {:induction false} PresentMirror(r: Relation, s: Scheme)
    requires Mirror(r)
    ensures var p := FirstPass(r, s, s); p.ap == p.bp && p.kind == None
  {
    var ap := Present(r.a, s.excluded);
    if ap != [] {
      var book := ap[0].book;
      assert ap[0] in ap;
      assert BookSet(ap) == {book};
      assert BookSet(ap) + BookSet(ap) == {book};
    }
  }

  /** When both sides list the same verses, B keys of a book in A order ascend. */
  lemma MirrorKeysAscend(ord: BookOrder, first: seq<Relation>, book: string)
    requires forall r :: r in first ==> r.ap == r.bp
    ensures Lis.Ascending(PosLe, KeysB(ord, first, BookGroup(ord, first, book)))
  {
    var g := BookGroup(ord, first, book);
    var keys := KeysB(ord, first, g);
    SortMembers(BookIndices(first, book), KeyA(ord, first));
    SortSorts(BookIndices(first, book), KeyA(ord, first));
    forall k | 0 <= k < |g| ensures keys[k] == KeyA(ord, first)(g[k]) {
      assert g[k] in g && g[k] in BookIndices(first, book);
      assert first[g[k]] in first;
    }
  }

  lemma MirrorsKeepOrder(ord: BookOrder, first: seq<Relation>, marked: set<nat>, i: nat)
    requires Marking(ord, first, marked) && i < |first|
    requires forall r :: r in first ==> r.ap == r.bp
    ensures i !in marked
  {
    if TwoSided(first[i]) {
      var book := first[i].ap[0].book;
      var g := BookGroup(ord, first, book);
      SortMembers(BookIndices(first, book), KeyA(ord, first));
      assert BookMarked(ord, first, book, marked);
      var keep: set<nat> :| MarkedOff(ord, first, g, marked, keep);
      assert i in g;
      var position :| 0 <= position < |g| && g[position] == i;
      MirrorKeysAscend(ord, first, book);
      Lis.WholeListKept(PosLe, KeysB(ord, first, g), keep);
      assert position in keep;
    }
  }

  /** Every relation of a self-comparison lists the same verses on both sides. */
  lemma SelfMirrors(ord: BookOrder, s: Scheme, org: Option<Scheme>)
    ensures forall r :: r in Composed(ord, s, s, org) ==> Mirror(r) && r.etype == None
  {
    var st := ScanBoth(ord, s, s, org);
    var cs := Components(st.links, st.nodes);
    forall c | c in cs ensures SideVerses(c, SideA) == SideVerses(c, SideB) {
      ComponentMirrors(ord, s, org, c);
    }
    ComposedMirrors(ord, cs, st, Collisions(st.claims), s);
    NoEventsYet(ord, cs, st, Collisions(st.claims), s, s);
  }

  /** Classifying mirrored relations types none and finds no inversion. */
  lemma MirrorsClassify(ord: BookOrder, rs: seq<Relation>, s: Scheme, out: seq<Relation>)
    requires Classified(ord, rs, s, s, out) && forall r :: r in rs ==> Mirror(r)
    ensures out == FirstPassAll(rs, s, s)
    ensures forall i :: 0 <= i < |out| ==> out[i].ap == out[i].bp && out[i].kind == None
  {
    var first := FirstPassAll(rs, s, s);
    forall i | 0 <= i < |first| ensures first[i].ap == first[i].bp && first[i].kind == None {
      assert rs[i] in rs;
      PresentMirror(rs[i], s);
    }
    var marked: set<nat> :| Marking(ord, first, marked) && out == Mark(first, marked);
    forall i | 0 <= i < |out| ensures out[i] == first[i] {
      MirrorsKeepOrder(ord, first, marked, i);
    }
  }

  /** Comparing any scheme with itself, through any root or none, types no relation and finds no inversion. */
  lemma SelfComparisonIsClean(ord: BookOrder, s: Scheme, org: Option<Scheme>, out: seq<Relation>)
    requires Classified(ord, Composed(ord, s, s, org), s, s, out)
    ensures forall r :: r in out ==> r.kind == None && r.a == r.b && r.ap == r.bp && r.etype == None
  {
    var rs := Composed(ord, s, s, org);
    SelfMirrors(ord, s, org);
    MirrorsClassify(ord, rs, s, out);
    forall i | 0 <= i < |out| ensures out[i].a == out[i].b && out[i].etype == None {
      assert rs[i] in rs;
      FirstPassKeeps(rs[i], s, s);
    }
  }

  lemma PiecesDrawNothing(ord: BookOrder, r: Relation)
    requires r.etype == None
    ensures forall p :: p in SplitAlternates(ord, r) ==> p.etype == None
  {
    forall p | p in SplitAlternates(ord, r) ensures p.etype == None {
      SplitPieces(ord, r, p);
    }
  }

  /** Composition draws no events. */
  lemma {:induction false} NoEventsYet(ord: BookOrder, cs: seq<seq<Node>>, st: Scan, collide: set<Node>, a: Scheme, b: Scheme)
    ensures forall r :: r in ComponentRelations(ord, cs, st, collide, a, b) ==> r.etype == None
  {
    if cs != [] {
      NoEventsYet(ord, cs[..|cs| - 1], st, collide, a, b);
      PiecesDrawNothing(ord, ComponentRelation(ord, cs[|cs| - 1], st, collide, a, b));
    }
  }
}
