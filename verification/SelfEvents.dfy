/** Which events a scheme compared with itself still yields: bridges and parts that its own mappings run against. */
module SelfEvents {
  import opened Refs
  import opened Sorting
  import opened Options
  import opened Schemes
  import opened DisjointSets
  import opened Classification
  import opened Composition
  import opened ComponentLaws
  import opened ScanLaws
  import opened SelfComparison
  import opened PieceLaws
  import opened EventsRun
  import opened Bridges
  import opened BookFolds
  import opened EventList

  // ----- the verses of a scheme -----

  /** A verse of the book's maxima, or a verse 0 of one of its chapters that a mapping names. */
  predicate InMaxima(s: Scheme, v: Verse, chapters: nat) {
    && v.book in s.max && chapters <= |s.max[v.book]| && 1 <= v.chapter <= chapters
    && if v.verse == 0 then v in s.edges else v.verse <= s.max[v.book][v.chapter - 1]
  }

  lemma {:induction false} BookVersesIff(s: Scheme, book: string, n: nat, v: Verse)
    requires book in s.max && n <= |s.max[book]|
    ensures v in BookVerses(s, book, n) <==> v.book == book && InMaxima(s, v, n)
  {
    if n > 0 {
      BookVersesIff(s, book, n - 1, v);
      ChapterVersesIff(book, n, s.max[book][n - 1], v);
      var zero := if Verse(book, n, 0) in s.edges then [Verse(book, n, 0)] else [];
      assert v in zero <==> v == Verse(book, n, 0) && v in s.edges;
      assert BookVerses(s, book, n) == BookVerses(s, book, n - 1) + zero + ChapterVerses(book, n, s.max[book][n - 1]);
    }
  }

  lemma ChapterVersesIff(book: string, chapter: nat, count: nat, v: Verse)
    ensures v in ChapterVerses(book, chapter, count) <==> v.book == book && v.chapter == chapter && 1 <= v.verse <= count
  {
    if v.book == book && v.chapter == chapter && 1 <= v.verse <= count {
      assert ChapterVerses(book, chapter, count)[v.verse - 1] == v;
    }
  }

  lemma {:induction false} VersesOfBooksIff(s: Scheme, books: seq<string>, v: Verse)
    ensures v in VersesOfBooks(s, books) <==> v.book in books && v.book in s.max && InMaxima(s, v, |s.max[v.book]|)
  {
    if books != [] {
      var init, book := books[..|books| - 1], books[|books| - 1];
      VersesOfBooksIff(s, init, v);
      assert v.book in books <==> v.book in init || v.book == book;
      if book in s.max {
        BookVersesIff(s, book, |s.max[book]|, v);
      }
    }
  }

  /** The verse is listed by the scheme and not excluded; a verse 0 needs a mapping. */
  predicate Shown(s: Scheme, v: Verse) {
    && v.book in s.books && v.book in s.max && InMaxima(s, v, |s.max[v.book]|)
    && TakesPart(s, v) && v !in s.excluded
  }

  lemma ShownIff(ord: BookOrder, s: Scheme, v: Verse)
    ensures Shown(s, v) <==> v in Participants([], s, Verses(ord, s)) && v !in s.excluded
  {
    var books := StableSort(s.books, book => Pos(ord(book), 0, 0));
    SortMembers(s.books, book => Pos(ord(book), 0, 0));
    VersesOfBooksIff(s, books, v);
  }

  /** Two shown verses of one book that mappings to root verses connect. */
  ghost predicate Joined(ord: BookOrder, s: Scheme, org: Option<Scheme>, v: Verse, w: Verse) {
    && Shown(s, v) && Shown(s, w) && v.book == w.book
    && Connected(ScanBoth(ord, s, s, org).links, Node(SideA, v), Node(SideB, w))
  }

  // ----- relations of a self-comparison -----

  ghost predicate Together(rs: seq<Relation>, v: Verse, w: Verse) {
    exists r :: r in rs && v in r.a && w in r.b
  }

  ghost predicate Linked(ord: BookOrder, s: Scheme, org: Option<Scheme>, v: Verse, w: Verse) {
    && v in Participants([], s, Verses(ord, s)) && w in Participants([], s, Verses(ord, s)) && v.book == w.book
    && Connected(ScanBoth(ord, s, s, org).links, Node(SideA, v), Node(SideB, w))
  }

  lemma TogetherLinked(ord: BookOrder, s: Scheme, org: Option<Scheme>, r: Relation, v: Verse, w: Verse)
    requires r in Composed(ord, s, s, org) && v in r.a && w in r.b
    ensures Linked(ord, s, org, v, w)
  {
    var st := ScanBoth(ord, s, s, org);
    var cs := ComponentsOf(ord, s, s, org);
    var k := PieceOrigin(ord, s, s, org, cs, r);
    var c := cs[k];
    PieceWithin(ord, RelationOf(ord, s, s, org, c), r);
    ListedVerses(ord, s, s, org, c, v);
    ListedVerses(ord, s, s, org, c, w);
    ComponentsAreClasses(st.links, st.nodes);
    assert c == Near(st.links, c[0], st.nodes);
    ConnectedSym(st.links, c[0], Node(SideA, v));
    ConnectedTrans(st.links, Node(SideA, v), c[0], Node(SideB, w));
    ScanBothSides(ord, s, s, org);
    assert v in SideVerses(st.nodes, SideA) && w in SideVerses(st.nodes, SideB);
    SelfMirrors(ord, s, org);
  }

  lemma LinkedTogether(ord: BookOrder, s: Scheme, org: Option<Scheme>, v: Verse, w: Verse)
    requires Linked(ord, s, org, v, w)
    ensures Together(Composed(ord, s, s, org), v, w)
  {
    var st := ScanBoth(ord, s, s, org);
    var cs := ComponentsOf(ord, s, s, org);
    ScanBothSides(ord, s, s, org);
    assert v in SideVerses(st.nodes, SideA) && w in SideVerses(st.nodes, SideB);
    var k := OneComponentEach(st.links, st.nodes, Node(SideA, v));
    assert Node(SideA, v) in cs[k] && Node(SideB, w) in cs[k];
    var r := RelationOf(ord, s, s, org, cs[k]);
    ListedVerses(ord, s, s, org, cs[k], v);
    ListedVerses(ord, s, s, org, cs[k], w);
    ComponentMirrors(ord, s, org, cs[k]);
    var p := PieceOfBook(ord, r, v, w);
    PiecesListed(ord, s, s, org, cs, k, p);
  }

  /** Two verses of one book stay together in the split of a mirrored component. */
  lemma PieceOfBook(ord: BookOrder, r: Relation, v: Verse, w: Verse) returns (p: Relation)
    requires r.a == r.b && v in r.a && w in r.b && v.book == w.book
    ensures p in SplitAlternates(ord, r) && v in p.a && w in p.b
  {
    var books := BookList(r.a);
    if |books| <= 1 {
      p := r;
      assert SplitAlternates(ord, r) == [r];
    } else {
      assert v.book in BookSet(r.a) && v.book in books;
      var common := BookSet(r.a) * BookSet(r.b);
      NoneOutside(r.a, common);
      var kept := Sorted(ord, KeepBooks(books, common));
      assert SplitAlternates(ord, r) == PiecesByCommonBook(r, kept);
      SortMembers(KeepBooks(books, common), (book: string) => Pos(ord(book), 0, 0));
      assert v.book in kept;
      var i :| 0 <= i < |kept| && kept[i] == v.book;
      p := PiecesByCommonBook(r, kept)[i];
    }
  }

  /** In a self-comparison two present verses share a relation exactly when they are joined. */
  lemma PresentTogetherIff(ord: BookOrder, s: Scheme, org: Option<Scheme>, out: seq<Relation>, v: Verse, w: Verse)
    requires Classified(ord, Composed(ord, s, s, org), s, s, out)
    ensures (exists r :: r in out && v in r.ap && w in r.bp) <==> Joined(ord, s, org, v, w)
  {
    var rs := Composed(ord, s, s, org);
    PresentTogether(ord, rs, s, out, v, w);
    LinkedIff(ord, s, org, v, w);
    ShownIff(ord, s, v);
    ShownIff(ord, s, w);
  }

  lemma LinkedIff(ord: BookOrder, s: Scheme, org: Option<Scheme>, v: Verse, w: Verse)
    ensures Together(Composed(ord, s, s, org), v, w) <==> Linked(ord, s, org, v, w)
  {
    if r :| r in Composed(ord, s, s, org) && v in r.a && w in r.b {
      TogetherLinked(ord, s, org, r, v, w);
    }
    if Linked(ord, s, org, v, w) {
      LinkedTogether(ord, s, org, v, w);
    }
  }

  lemma PresentTogether(ord: BookOrder, rs: seq<Relation>, s: Scheme, out: seq<Relation>, v: Verse, w: Verse)
    requires Classified(ord, rs, s, s, out)
    ensures (exists r :: r in out && v in r.ap && w in r.bp) <==>
            Together(rs, v, w) && v !in s.excluded && w !in s.excluded
  {
    ClassifiedKeeps(ord, rs, s, s, out);
    if r :| r in out && v in r.ap && w in r.bp {
      var i :| 0 <= i < |out| && out[i] == r;
      assert Keeps(rs[i], out[i], s, s);
      assert rs[i] in rs && v in rs[i].a && w in rs[i].b;
    }
    if Together(rs, v, w) && v !in s.excluded && w !in s.excluded {
      var r :| r in rs && v in r.a && w in r.b;
      var i :| 0 <= i < |rs| && rs[i] == r;
      assert Keeps(rs[i], out[i], s, s);
      assert out[i] in out && v in out[i].ap && w in out[i].bp;
    }
  }

  // ----- the condition -----

  /** The verses joined to some verse of the bridge. */
  ghost function JoinedTo(ord: BookOrder, s: Scheme, org: Option<Scheme>, g: Bridge): set<Verse> {
    set w | w in Verses(ord, s) && exists v :: v in BridgeVerses(g) && Joined(ord, s, org, v, w)
  }

  /** What every bridge is joined to is a bridge. */
  ghost predicate BridgesRespected(ord: BookOrder, s: Scheme, org: Option<Scheme>) {
    forall g :: g in s.bridges ==> Bridged(s.bridges, JoinedTo(ord, s, org, g))
  }

  /** Joined verses have the same parts. */
  ghost predicate PartsRespected(ord: BookOrder, s: Scheme, org: Option<Scheme>) {
    forall v, w :: Joined(ord, s, org, v, w) ==> PartsOf(s, v) == PartsOf(s, w)
  }

  /** The cross tables of a self-comparison, read from either side, hold the joined verses. */
  ghost predicate CrossesJoined(ord: BookOrder, s: Scheme, org: Option<Scheme>, c: Cross) {
    forall v, w :: w in Get(c, v) <==> Joined(ord, s, org, v, w)
  }

  lemma SelfCrosses(ord: BookOrder, s: Scheme, org: Option<Scheme>, out: seq<Relation>, onA: bool)
    requires Classified(ord, Composed(ord, s, s, org), s, s, out)
    ensures CrossesJoined(ord, s, org, CrossOf(out, onA))
  {
    SelfComparisonIsClean(ord, s, org, out);
    forall v, w ensures w in Get(CrossOf(out, onA), v) <==> Joined(ord, s, org, v, w) {
      CrossIff(out, onA, v, w);
      PresentTogetherIff(ord, s, org, out, v, w);
    }
  }

  lemma SelfCounterpart(ord: BookOrder, s: Scheme, org: Option<Scheme>, c: Cross, g: Bridge)
    requires CrossesJoined(ord, s, org, c)
    ensures Counterpart(c, BridgeVerses(g)) == JoinedTo(ord, s, org, g)
  {
    forall w ensures w in Counterpart(c, BridgeVerses(g)) <==> w in JoinedTo(ord, s, org, g) {
      CounterpartIff(c, BridgeVerses(g), w);
      if v :| v in BridgeVerses(g) && w in Get(c, v) {
        ShownIff(ord, s, w);
      }
    }
  }

  lemma SelfBridges(ord: BookOrder, s: Scheme, org: Option<Scheme>, onA: bool, c: Cross, events: seq<Entry>)
    requires CrossesJoined(ord, s, org, c) && BridgesShown(ord, onA, s.bridges, s.bridges, c, events)
    ensures events == [] <==> BridgesRespected(ord, s, org)
  {
    NoBridgeShown(ord, onA, s.bridges, s.bridges, c, events);
    forall g: Bridge
      ensures Bridged(s.bridges, Counterpart(c, BridgeVerses(g))) <==> Bridged(s.bridges, JoinedTo(ord, s, org, g))
    {
      SelfCounterpart(ord, s, org, c, g);
    }
  }

  lemma SelfSegments(ord: BookOrder, s: Scheme, org: Option<Scheme>, c: Cross, events: seq<Entry>)
    requires CrossesJoined(ord, s, org, c) && Keyed(c) && SegmentsShown(c, c.keys, s, s, events)
    ensures events == [] <==> PartsRespected(ord, s, org)
  {
    NoSegmentShown(c, c.keys, s, s, events);
    if PartsRespected(ord, s, org) {
      forall v | v in c.keys ensures Differing(c, v, s, s) == {} {
        forall w ensures w !in Differing(c, v, s, s) {
          DifferingIff(c, v, s, s, w);
        }
      }
    }
    if v, w :| Joined(ord, s, org, v, w) && PartsOf(s, v) != PartsOf(s, w) {
      assert w in Get(c, v) && v in c.keys;
      DifferingIff(c, v, s, s, w);
    }
  }

  /** A self-comparison has an event exactly when a bridge or a part runs against the mappings. */
  lemma SelfBuilt(ord: BookOrder, s: Scheme, org: Option<Scheme>, out: seq<Relation>, events: seq<Entry>)
    requires Classified(ord, Composed(ord, s, s, org), s, s, out) && Built(ord, out, s, s, events)
    ensures events == [] <==> BridgesRespected(ord, s, org) && PartsRespected(ord, s, org)
  {
    SelfComparisonIsClean(ord, s, org, out);
    UntypedDrawsNothing(ord, out);
    SelfCrosses(ord, s, org, out, true);
    SelfCrosses(ord, s, org, out, false);
    CrossKeyed(out, true);
    SelfFinished(ord, s, org, out, events);
  }

  lemma SelfAdded(ord: BookOrder, s: Scheme, org: Option<Scheme>, fromA: Cross, fromB: Cross,
                  onA: seq<Entry>, onB: seq<Entry>, parts: seq<Entry>)
    requires CrossesJoined(ord, s, org, fromA) && CrossesJoined(ord, s, org, fromB) && Keyed(fromA)
    requires BridgesShown(ord, true, s.bridges, s.bridges, fromA, onA)
    requires BridgesShown(ord, false, s.bridges, s.bridges, fromB, onB)
    requires SegmentsShown(fromA, fromA.keys, s, s, parts)
    ensures onA + onB + parts == [] <==> BridgesRespected(ord, s, org) && PartsRespected(ord, s, org)
  {
    SelfBridges(ord, s, org, true, fromA, onA);
    SelfBridges(ord, s, org, false, fromB, onB);
    SelfSegments(ord, s, org, fromA, parts);
    NoneOfThree(onA, onB, parts);
  }

  lemma NoneOfThree(xs: seq<Entry>, ys: seq<Entry>, zs: seq<Entry>)
    ensures xs + ys + zs == [] <==> xs == [] && ys == [] && zs == []
  {
    assert |xs + ys + zs| == |xs| + |ys| + |zs|;
  }

  lemma SelfFinished(ord: BookOrder, s: Scheme, org: Option<Scheme>, out: seq<Relation>, events: seq<Entry>)
    requires CrossesJoined(ord, s, org, CrossOf(out, true)) && CrossesJoined(ord, s, org, CrossOf(out, false))
    requires Keyed(CrossOf(out, true)) && Finished(ord, [], out, s, s, events)
    ensures events == [] <==> BridgesRespected(ord, s, org) && PartsRespected(ord, s, org)
  {
    var onA, onB, parts :| BridgesAndParts(ord, out, s, s, onA, onB, parts)
                           && events == Fold(Wrap([]) + (onA + onB + parts), s, s);
    SelfAdded(ord, s, org, CrossOf(out, true), CrossOf(out, false), onA, onB, parts);
    NothingFolds(onA + onB + parts, s);
  }

  lemma NothingFolds(all: seq<Entry>, s: Scheme)
    ensures Fold(Wrap([]) + all, s, s) == all
  {
    assert Wrap([]) + all == all;
    SharedBooksStay(all, true, s, s.books);
    SharedBooksStay(all, false, s, s.books);
  }

  // ----- two schemes that differ from themselves -----

  /** Three verses, the last two printed as one, and the last of these excluded. */
  function ExcludedBridge(): Scheme {
    Scheme(["GEN"], map["GEN" := [3]], {Verse("GEN", 1, 3)}, map[], map[], false, [Bridge("GEN", 1, 2, 3)], map[])
  }

  /** No verse is joined to the excluded one, so what the bridge is joined to is not the bridge. */
  lemma ExcludedBridgeRunsAgainst(ord: BookOrder, s: Scheme, org: Option<Scheme>)
    requires s == ExcludedBridge()
    ensures !BridgesRespected(ord, s, org)
  {
    var g := Bridge("GEN", 1, 2, 3);
    var gone := Verse("GEN", 1, 3);
    assert s.bridges == [g] && g in s.bridges && gone in s.excluded;
    assert BridgeVerses(g)[1] == gone;
    assert gone in BridgeSet(g);
    assert gone !in JoinedTo(ord, s, org, g);
  }

  /** Three verses, the first two mapped to one root verse, of which only the first has a part. */
  function PartOfOne(): Scheme {
    var root := Edge(Verse("GEN", 1, 1), {});
    Scheme(["GEN"], map["GEN" := [3]], {}, map[Verse("GEN", 1, 1) := [root], Verse("GEN", 1, 2) := [root]], map[], false,
           [], map[Verse("GEN", 1, 1) := ["a"]])
  }

  /** Verses with a common root target are joined. */
  lemma CommonTargetJoins(ord: BookOrder, s: Scheme, org: Option<Scheme>, v: Verse, w: Verse)
    requires Shown(s, v) && Shown(s, w) && v.book == w.book && ToOrg(s, v).0[0].org == ToOrg(s, w).0[0].org
    ensures Joined(ord, s, org, v, w)
  {
    var links := ScanBoth(ord, s, s, org).links;
    var vs := Verses(ord, s);
    ScanBothSides(ord, s, s, org);
    ShownIff(ord, s, v);
    ShownIff(ord, s, w);
    var root := Node(SideO, Canon(org, ToOrg(s, v).0[0].org));
    ParticipantLinked(org, SideA, s, vs, v);
    ParticipantLinked(org, SideB, s, vs, w);
    ConnectedLink(links, Node(SideA, v), root);
    ConnectedLink(links, root, Node(SideB, w));
    ConnectedTrans(links, Node(SideA, v), root, Node(SideB, w));
  }

  lemma PartOfOneRunsAgainst(ord: BookOrder, s: Scheme, org: Option<Scheme>)
    requires s == PartOfOne()
    ensures !PartsRespected(ord, s, org)
  {
    var v, w := Verse("GEN", 1, 1), Verse("GEN", 1, 2);
    CommonTargetJoins(ord, s, org, v, w);
    assert PartsOf(s, v) == ["a"] && PartsOf(s, w) == [];
  }
}
