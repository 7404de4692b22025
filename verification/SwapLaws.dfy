/** The comparison of `b` with `a` as a whole against that of `a` with `b`: where it is the mirror image, and where not. */
module SwapLaws {
  import opened Refs
  import opened Sorting
  import opened Options
  import opened Schemes
  import opened DisjointSets
  import opened Classification
  import opened Composition
  import opened SideSwap
  import opened ComponentSwap
  import opened PieceLaws

  /** A relation with its root verses as a set: their order is the one thing that depends on who is scanned first. */
  datatype Outline = Outline(
    a: seq<Verse>, roots: set<Verse>, b: seq<Verse>,
    flags: set<Flag>, warn: bool, codesA: set<string>, codesB: set<string>,
    ap: seq<Verse>, bp: seq<Verse>, card: (Count, Count), kind: Option<Kind>
  )

  function OutlineOf(r: Relation): Outline {
    Outline(r.a, (set v | v in r.o), r.b, r.flags, r.warn, r.codesA, r.codesB, r.ap, r.bp, r.card, r.kind)
  }

  function Uncoded(x: Outline): Outline {
    x.(codesA := {}, codesB := {})
  }

  // ----- one component -----

  /** As composition leaves a relation. */
  predicate Unclassified(r: Relation) {
    r.ap == [] && r.bp == [] && r.card == (Zero, Zero) && r.kind == None && r.etype == None
  }

  /** `r'` is `r` with the sides exchanged, up to the order of the root verses. */
  ghost predicate Reversed(r: Relation, r': Relation) {
    Unclassified(r) && Unclassified(r') && Exchanged(r, r')
  }

  lemma ReversedIsSwapped(r: Relation, r': Relation)
    requires Reversed(r, r')
    ensures r' == SwapRelation(r).(o := r'.o) && (set v | v in r'.o) == (set v | v in r.o)
  {
  }

  /** The first pass over a relation does not read its root verses. */
  lemma FirstPassKeepsRoots(r: Relation, o: seq<Verse>, a: Scheme, b: Scheme)
    ensures FirstPass(r.(o := o), a, b) == FirstPass(r, a, b).(o := o)
  {
    var c := Counted(r, Present(r.a, a.excluded), Present(r.b, b.excluded));
    if c.ap == [] && c.bp == [] {
    } else if c.ap == [] || c.bp == [] {
      LoneKeepsRoots(c, o);
    } else {
      PairKeepsRoots(c, BothSidesKind(c.ap, c.bp, c.flags), a.hasVrs && b.hasVrs, o);
    }
  }

  lemma LoneKeepsRoots(r: Relation, o: seq<Verse>)
    ensures LoneTyped(r.(o := o)) == LoneTyped(r).(o := o)
  {
  }

  lemma PairKeepsRoots(r: Relation, kind: Option<Kind>, bothVrs: bool, o: seq<Verse>)
    ensures PairTyped(r.(o := o), kind, bothVrs) == PairTyped(r, kind, bothVrs).(o := o)
  {
  }

  lemma FirstPassReversed(r: Relation, r': Relation, a: Scheme, b: Scheme)
    requires Reversed(r, r')
    ensures Uncoded(OutlineOf(SwapRelation(FirstPass(r', b, a)))) == Uncoded(OutlineOf(FirstPass(r, a, b)))
  {
    ReversedIsSwapped(r, r');
    FirstPassSwaps(r, a, b);
    FirstPassKeepsRoots(SwapRelation(r), r'.o, b, a);
    FirstPassKeepsRoots(r, r.o, a, b);
    FirstPassKeeps(SwapRelation(r), b, a);
    FirstPassKeeps(r, a, b);
  }

  /**
   * Every component has a mirror in the comparison with the sides exchanged, and the first pass gives it
   * the mirrored type: merges and splits trade places and cardinalities reverse.
   */
  lemma ComponentTypesMirror(ord: BookOrder, a: Scheme, b: Scheme, org: Option<Scheme>, c: seq<Node>) returns (c': seq<Node>)
    requires c in ComponentsOf(ord, a, b, org)
    ensures c' in ComponentsOf(ord, b, a, org) && FlippedComponent(c, c')
    ensures var there := FirstPass(RelationOf(ord, a, b, org, c), a, b);
            var back := FirstPass(RelationOf(ord, b, a, org, c'), b, a);
            && back.kind == SwapKind(there.kind) && back.card == (there.card.1, there.card.0)
            && back.a == there.b && back.b == there.a && back.ap == there.bp && back.bp == there.ap
            && back.flags == there.flags && back.warn == there.warn
            && (forall v :: v in back.o <==> v in there.o)
  {
    c' := ComponentsExchange(ord, a, b, org, c);
    var r, r' := RelationOf(ord, a, b, org, c), RelationOf(ord, b, a, org, c');
    assert Reversed(r, r');
    FirstPassReversed(r, r', a, b);
    FirstPassKeeps(r, a, b);
    FirstPassKeeps(r', b, a);
    var there, back := FirstPass(r, a, b), FirstPass(r', b, a);
    assert OutlineOf(SwapRelation(back)).kind == OutlineOf(there).kind;
    SwapKindTwice(back.kind);
  }

  lemma SwapKindTwice(k: Option<Kind>)
    ensures SwapKind(SwapKind(k)) == k
  {
  }

  // ----- lists without order -----

  function MapAll(f: Relation -> Outline, rs: seq<Relation>): seq<Outline> {
    seq(|rs|, i requires 0 <= i < |rs| => f(rs[i]))
  }

  lemma MapConcat(f: Relation -> Outline, xs: seq<Relation>, ys: seq<Relation>)
    ensures MapAll(f, xs + ys) == MapAll(f, xs) + MapAll(f, ys)
  {
  }

  lemma MapRemove(f: Relation -> Outline, xs: seq<Relation>, i: nat)
    requires i < |xs|
    ensures multiset(MapAll(f, xs)) == multiset{f(xs[i])} + multiset(MapAll(f, xs[..i] + xs[i + 1..]))
  {
    var ms := MapAll(f, xs);
    RemoveAt(ms, i);
    assert ms[..i] + ms[i + 1..] == MapAll(f, xs[..i] + xs[i + 1..]);
  }

  lemma {:induction false} MapFollows(f: Relation -> Outline, xs: seq<Relation>, ys: seq<Relation>)
    requires multiset(xs) == multiset(ys)
    ensures multiset(MapAll(f, xs)) == multiset(MapAll(f, ys))
    decreases |xs|
  {
    if xs == [] {
      assert |multiset(ys)| == 0;
    } else {
      var i := SameWithout(xs, ys);
      MapFollows(f, xs[..0] + xs[1..], ys[..i] + ys[i + 1..]);
      MapRemove(f, xs, 0);
      MapRemove(f, ys, i);
    }
  }

  // ----- pieces of one component -----

  /** Two ways of looking at relations that see a relation and its mirror alike, and see the verses of side A. */
  ghost predicate Views(f: Relation -> Outline, f': Relation -> Outline) {
    && (forall r, r' :: Reversed(r, r') ==> f'(r') == f(r))
    && (forall r, r' :: f'(r') == f(r) ==> r'.b == r.a)
  }

  function WithRoots(rs: seq<Relation>, o: seq<Verse>): seq<Relation> {
    seq(|rs|, i requires 0 <= i < |rs| => rs[i].(o := o))
  }

  lemma SplitKeepsRoots(ord: BookOrder, r: Relation, o: seq<Verse>)
    ensures SplitAlternates(ord, r.(o := o)) == WithRoots(SplitAlternates(ord, r), o)
  {
    var s := r.(o := o);
    var booksA, booksB, c := BookList(r.a), BookList(r.b), BookSet(r.a) * BookSet(r.b);
    if booksA == [] || booksB == [] || (|booksA| == 1 && |booksB| == 1) {
      SplitAlone(ord, r);
      SplitAlone(ord, s);
    } else if c == {} {
      SplitApart(ord, r);
      SplitApart(ord, s);
      PiecesKeepRoots(r, Sorted(ord, booksA), o);
      PiecesKeepRoots(r, Sorted(ord, booksB), o);
    } else {
      SplitCommon(ord, r, c);
      SplitCommon(ord, s, c);
      PiecesKeepRoots(r, Sorted(ord, KeepBooks(booksA, c)), o);
      LeftoversKeepRoots(r, c, o);
      WithRootsConcat(PiecesByCommonBook(r, Sorted(ord, KeepBooks(booksA, c))), Leftovers(r, c), o);
    }
  }

  lemma PiecesKeepRoots(r: Relation, books: seq<string>, o: seq<Verse>)
    ensures PiecesByBookA(r.(o := o), books) == WithRoots(PiecesByBookA(r, books), o)
    ensures PiecesByBookB(r.(o := o), books) == WithRoots(PiecesByBookB(r, books), o)
    ensures PiecesByCommonBook(r.(o := o), books) == WithRoots(PiecesByCommonBook(r, books), o)
  {
  }

  lemma LeftoversKeepRoots(r: Relation, common: set<string>, o: seq<Verse>)
    ensures Leftovers(r.(o := o), common) == WithRoots(Leftovers(r, common), o)
  {
  }

  lemma WithRootsConcat(xs: seq<Relation>, ys: seq<Relation>, o: seq<Verse>)
    ensures WithRoots(xs + ys, o) == WithRoots(xs, o) + WithRoots(ys, o)
  {
  }

  /** Pieces differ from the component in their verses and their warning only. */
  lemma PiecesUnclassified(ord: BookOrder, r: Relation, i: nat)
    requires Unclassified(r) && i < |SplitAlternates(ord, r)|
    ensures var p := SplitAlternates(ord, r)[i]; p == r.(a := p.a, b := p.b, warn := p.warn)
  {
    SplitPieces(ord, r, SplitAlternates(ord, r)[i]);
  }

  lemma PiecesReversed(ord: BookOrder, r: Relation, r': Relation, f: Relation -> Outline, f': Relation -> Outline)
    requires Reversed(r, r') && Views(f, f') && !SplitsOneSide(r)
    ensures multiset(MapAll(f', SplitAlternates(ord, r'))) == multiset(MapAll(f, SplitAlternates(ord, r)))
  {
    ReversedIsSwapped(r, r');
    var s := SwapRelation(r);
    var ps := SplitAlternates(ord, s);
    SplitKeepsRoots(ord, s, r'.o);
    SplitSwapsIff(ord, r);
    MapFollows(f, SwapAll(ps), SplitAlternates(ord, r));
    forall i | 0 <= i < |ps| ensures f'(ps[i].(o := r'.o)) == f(SwapRelation(ps[i])) {
      PiecesUnclassified(ord, s, i);
      assert Reversed(SwapRelation(ps[i]), ps[i].(o := r'.o));
    }
    assert MapAll(f', SplitAlternates(ord, r')) == MapAll(f, SwapAll(ps));
  }

  // ----- pairing components off -----

  ghost predicate Injection(ix: seq<nat>, n: nat) {
    && (forall k :: 0 <= k < |ix| ==> ix[k] < n)
    && (forall j, k :: 0 <= j < k < |ix| ==> ix[j] != ix[k])
  }

  function SkipOver(ix: seq<nat>, j: nat): seq<nat> {
    seq<nat>(|ix|, k requires 0 <= k < |ix| => if ix[k] > j then ix[k] - 1 else ix[k])
  }

  lemma {:induction false} InjectedBags(gs: seq<multiset<Outline>>, hs: seq<multiset<Outline>>, ix: seq<nat>)
    requires |ix| == |gs| && Injection(ix, |hs|) && forall k :: 0 <= k < |gs| ==> gs[k] == hs[ix[k]]
    ensures |gs| <= |hs|
    ensures |gs| == |hs| ==> Total(gs) == Total(hs)
    decreases |gs|
  {
    if gs == [] {
    } else {
      var n := |gs| - 1;
      var j := ix[n];
      var rest := hs[..j] + hs[j + 1..];
      var jx := SkipOver(ix[..n], j);
      forall k | 0 <= k < n ensures jx[k] < |rest| && rest[jx[k]] == gs[..n][k] {
        assert ix[k] != ix[n];
      }
      assert Injection(jx, |rest|);
      InjectedBags(gs[..n], rest, jx);
      TotalRemove(hs, j);
    }
  }

  function Total(gs: seq<multiset<Outline>>): multiset<Outline> {
    if gs == [] then multiset{} else Total(gs[..|gs| - 1]) + gs[|gs| - 1]
  }

  lemma {:induction false} TotalConcat(xs: seq<multiset<Outline>>, ys: seq<multiset<Outline>>)
    ensures Total(xs + ys) == Total(xs) + Total(ys)
  {
    if ys == [] {
      assert xs + ys == xs;
    } else {
      TotalConcat(xs, ys[..|ys| - 1]);
      assert (xs + ys)[..|xs + ys| - 1] == xs + ys[..|ys| - 1];
    }
  }

  lemma TotalMiddle(xs: seq<multiset<Outline>>, x: multiset<Outline>, ys: seq<multiset<Outline>>)
    ensures Total(xs + [x] + ys) == Total(xs + ys) + x
  {
    TotalConcat(xs + [x], ys);
    TotalConcat(xs, ys);
    assert (xs + [x])[..|xs|] == xs;
  }

  lemma TotalRemove(hs: seq<multiset<Outline>>, j: nat)
    requires j < |hs|
    ensures Total(hs) == Total(hs[..j] + hs[j + 1..]) + hs[j]
  {
    assert hs == hs[..j] + [hs[j]] + hs[j + 1..];
    TotalMiddle(hs[..j], hs[j], hs[j + 1..]);
  }

  /** No two components have one mirror. */
  lemma MirrorsApart(ord: BookOrder, a: Scheme, b: Scheme, org: Option<Scheme>, j: nat, k: nat, c': seq<Node>)
    requires var cs := ComponentsOf(ord, a, b, org);
             j < |cs| && k < |cs| && FlippedComponent(cs[j], c') && FlippedComponent(cs[k], c')
    ensures j == k
  {
    var cs := ComponentsOf(ord, a, b, org);
    var n := cs[j][0];
    assert n in cs[j] && Flip(n) in c' && n in cs[k];
    SharedNode(ord, a, b, org, j, k, n);
  }

  /** Component `k'` of the exchanged comparison is the mirror of component `k`. */
  ghost predicate MirrorAt(ord: BookOrder, a: Scheme, b: Scheme, org: Option<Scheme>, k: nat, k': nat) {
    var cs, ds := ComponentsOf(ord, a, b, org), ComponentsOf(ord, b, a, org);
    && k < |cs| && k' < |ds| && FlippedComponent(cs[k], ds[k'])
    && Reversed(RelationOf(ord, a, b, org, cs[k]), RelationOf(ord, b, a, org, ds[k']))
  }

  /** The mirrors of the first `|ix|` components. */
  ghost predicate Mirrored(ord: BookOrder, a: Scheme, b: Scheme, org: Option<Scheme>, ix: seq<nat>) {
    forall k :: 0 <= k < |ix| ==> MirrorAt(ord, a, b, org, k, ix[k])
  }

  lemma MirrorOf(ord: BookOrder, a: Scheme, b: Scheme, org: Option<Scheme>, k: nat) returns (k': nat)
    requires k < |ComponentsOf(ord, a, b, org)|
    ensures MirrorAt(ord, a, b, org, k, k')
  {
    var ds := ComponentsOf(ord, b, a, org);
    var c := ComponentsOf(ord, a, b, org)[k];
    var c' := ComponentsExchange(ord, a, b, org, c);
    k' :| 0 <= k' < |ds| && ds[k'] == c';
  }

  lemma MirroredSnoc(ord: BookOrder, a: Scheme, b: Scheme, org: Option<Scheme>, ix: seq<nat>, k: nat)
    requires Mirrored(ord, a, b, org, ix) && MirrorAt(ord, a, b, org, |ix|, k)
    ensures Mirrored(ord, a, b, org, ix + [k])
  {
  }

  lemma {:induction false} MirrorFirst(ord: BookOrder, a: Scheme, b: Scheme, org: Option<Scheme>, n: nat) returns (ix: seq<nat>)
    requires n <= |ComponentsOf(ord, a, b, org)|
    ensures |ix| == n && Mirrored(ord, a, b, org, ix)
  {
    if n == 0 {
      ix := [];
    } else {
      var init := MirrorFirst(ord, a, b, org, n - 1);
      var k := MirrorOf(ord, a, b, org, n - 1);
      ix := init + [k];
      MirroredSnoc(ord, a, b, org, init, k);
    }
  }

  lemma MirroredApart(ord: BookOrder, a: Scheme, b: Scheme, org: Option<Scheme>, ix: seq<nat>)
    requires Mirrored(ord, a, b, org, ix)
    ensures Injection(ix, |ComponentsOf(ord, b, a, org)|)
  {
    forall k | 0 <= k < |ix| ensures ix[k] < |ComponentsOf(ord, b, a, org)| {
      assert MirrorAt(ord, a, b, org, k, ix[k]);
    }
    forall j, k | 0 <= j < k < |ix| ensures ix[j] != ix[k] {
      assert MirrorAt(ord, a, b, org, j, ix[j]) && MirrorAt(ord, a, b, org, k, ix[k]);
      if ix[j] == ix[k] {
        MirrorsApart(ord, a, b, org, j, k, ComponentsOf(ord, b, a, org)[ix[j]]);
        assert false;
      }
    }
  }

  lemma {:induction false} InjectionFits(ix: seq<nat>, n: nat)
    requires Injection(ix, n)
    ensures |ix| <= n
  {
    var bags := seq(n, i requires 0 <= i => multiset{});
    InjectedBags(seq(|ix|, i requires 0 <= i => multiset{}), bags, ix);
  }

  /** The mirror map is one to one and onto: both comparisons have the same number of components. */
  lemma ComponentsPairOff(ord: BookOrder, a: Scheme, b: Scheme, org: Option<Scheme>) returns (ix: seq<nat>)
    ensures |ix| == |ComponentsOf(ord, a, b, org)| == |ComponentsOf(ord, b, a, org)|
    ensures Mirrored(ord, a, b, org, ix) && Injection(ix, |ix|)
  {
    ix := MirrorFirst(ord, a, b, org, |ComponentsOf(ord, a, b, org)|);
    var jx := MirrorFirst(ord, b, a, org, |ComponentsOf(ord, b, a, org)|);
    MirroredApart(ord, a, b, org, ix);
    MirroredApart(ord, b, a, org, jx);
    InjectionFits(ix, |ComponentsOf(ord, b, a, org)|);
    InjectionFits(jx, |ComponentsOf(ord, a, b, org)|);
  }

  // ----- the whole list -----

  /** What one component contributes to the relation list, seen through `f`. */
  ghost function PieceBag(f: Relation -> Outline, ord: BookOrder, r: Relation): multiset<Outline> {
    multiset(MapAll(f, PiecesOf(ord, r)))
  }

  ghost function PieceBags(f: Relation -> Outline, ord: BookOrder, a: Scheme, b: Scheme, org: Option<Scheme>,
                           cs: seq<seq<Node>>): seq<multiset<Outline>> {
    seq(|cs|, k requires 0 <= k < |cs| => PieceBag(f, ord, RelationOf(ord, a, b, org, cs[k])))
  }

  lemma BagsSnoc(f: Relation -> Outline, ord: BookOrder, a: Scheme, b: Scheme, org: Option<Scheme>, cs: seq<seq<Node>>)
    requires cs != []
    ensures Total(PieceBags(f, ord, a, b, org, cs))
            == Total(PieceBags(f, ord, a, b, org, cs[..|cs| - 1])) + PieceBag(f, ord, RelationOf(ord, a, b, org, cs[|cs| - 1]))
  {
    var bags := PieceBags(f, ord, a, b, org, cs);
    assert bags[..|bags| - 1] == PieceBags(f, ord, a, b, org, cs[..|cs| - 1]);
  }

  lemma BagConcat(f: Relation -> Outline, xs: seq<Relation>, ys: seq<Relation>)
    ensures multiset(MapAll(f, xs + ys)) == multiset(MapAll(f, xs)) + multiset(MapAll(f, ys))
  {
    MapConcat(f, xs, ys);
  }

  lemma {:induction false} ComposedBags(f: Relation -> Outline, ord: BookOrder, a: Scheme, b: Scheme, org: Option<Scheme>,
                                        cs: seq<seq<Node>>)
    ensures multiset(MapAll(f, RelationsOf(ord, a, b, org, cs))) == Total(PieceBags(f, ord, a, b, org, cs))
  {
    if cs != [] {
      var init, r := cs[..|cs| - 1], RelationOf(ord, a, b, org, cs[|cs| - 1]);
      ComposedBags(f, ord, a, b, org, init);
      BagsSnoc(f, ord, a, b, org, cs);
      RelationsSnoc(ord, a, b, org, cs);
      BagConcat(f, RelationsOf(ord, a, b, org, init), PiecesOf(ord, r));
    }
  }

  /** No component has to be divided on one of two many-book sides with no common book. */
  ghost predicate NoSideChosen(ord: BookOrder, a: Scheme, b: Scheme, org: Option<Scheme>) {
    forall c :: c in ComponentsOf(ord, a, b, org) ==> !SplitsOneSide(RelationOf(ord, a, b, org, c))
  }

  lemma ComposedMirrors(f: Relation -> Outline, f': Relation -> Outline, ord: BookOrder, a: Scheme, b: Scheme, org: Option<Scheme>)
    requires Views(f, f') && NoSideChosen(ord, a, b, org)
    ensures multiset(MapAll(f', Composed(ord, b, a, org))) == multiset(MapAll(f, Composed(ord, a, b, org)))
  {
    var cs, ds := ComponentsOf(ord, a, b, org), ComponentsOf(ord, b, a, org);
    var ix := ComponentsPairOff(ord, a, b, org);
    var gs, hs := PieceBags(f, ord, a, b, org, cs), PieceBags(f', ord, b, a, org, ds);
    forall k | 0 <= k < |gs| ensures gs[k] == hs[ix[k]] {
      var r, r' := RelationOf(ord, a, b, org, cs[k]), RelationOf(ord, b, a, org, ds[ix[k]]);
      assert MirrorAt(ord, a, b, org, k, ix[k]) && cs[k] in cs;
      PiecesReversed(ord, r, r', f, f');
    }
    InjectedBags(gs, hs, ix);
    ComposedBags(f, ord, a, b, org, cs);
    ComposedBags(f', ord, b, a, org, ds);
  }

  // ----- where the mirror breaks -----

  /** In the divided direction no relation lists all verses of the many-book side. */
  lemma WholeSideNowhere(ord: BookOrder, a: Scheme, b: Scheme, org: Option<Scheme>, c: seq<Node>, p: Relation)
    requires c in ComponentsOf(ord, a, b, org) && SplitsOneSide(RelationOf(ord, a, b, org, c))
    requires p in Composed(ord, a, b, org)
    ensures p.a != RelationOf(ord, a, b, org, c).a
  {
    var cs, r := ComponentsOf(ord, a, b, org), RelationOf(ord, a, b, org, c);
    var k := PieceOrigin(ord, a, b, org, cs, p);
    if p.a == r.a {
      var v := r.a[0];
      PieceWithin(ord, RelationOf(ord, a, b, org, cs[k]), p);
      ListedVerses(ord, a, b, org, c, v);
      ListedVerses(ord, a, b, org, cs[k], v);
      var j: nat :| j < |cs| && cs[j] == c;
      SharedNode(ord, a, b, org, j, k, Node(SideA, v));
      DividedPiece(ord, r, p);
    }
  }

  lemma DividedPiece(ord: BookOrder, r: Relation, p: Relation)
    requires SplitsOneSide(r) && p in SplitAlternates(ord, r)
    ensures p.a != r.a
  {
    var books := Sorted(ord, BookList(r.a));
    assert SplitAlternates(ord, r) == PiecesByBookA(r, books);
    var i :| 0 <= i < |books| && PiecesByBookA(r, books)[i] == p;
    OtherBookLost(r.a, books[i]);
  }

  /** In the other direction one does. */
  lemma WholeSideSomewhere(ord: BookOrder, a: Scheme, b: Scheme, org: Option<Scheme>, c: seq<Node>) returns (p: Relation)
    requires c in ComponentsOf(ord, a, b, org) && SplitsOneSide(RelationOf(ord, a, b, org, c))
    ensures p in Composed(ord, b, a, org) && p.b == RelationOf(ord, a, b, org, c).a
  {
    var ds, r := ComponentsOf(ord, b, a, org), RelationOf(ord, a, b, org, c);
    var c' := ComponentsExchange(ord, a, b, org, c);
    var r' := RelationOf(ord, b, a, org, c');
    var k: nat :| k < |ds| && ds[k] == c';
    assert BookSet(r'.a) * BookSet(r'.b) == {};
    var books := Sorted(ord, BookList(r'.a));
    SortMembers(BookList(r'.a), book => Pos(ord(book), 0, 0));
    p := PiecesByBookA(r', books)[0];
    assert p in SplitAlternates(ord, r') && r.a != [];
    PiecesListed(ord, b, a, org, ds, k, p);
  }

  lemma MapHas(f: Relation -> Outline, rs: seq<Relation>, x: Outline)
    ensures x in multiset(MapAll(f, rs)) <==> exists p :: p in rs && f(p) == x
  {
    var ms := MapAll(f, rs);
    if x in ms {
      var i :| 0 <= i < |ms| && ms[i] == x;
      assert rs[i] in rs;
    }
    if p :| p in rs && f(p) == x {
      var i :| 0 <= i < |rs| && rs[i] == p;
      assert ms[i] == x;
    }
  }

  lemma MirrorBreaks(f: Relation -> Outline, f': Relation -> Outline, ord: BookOrder, a: Scheme, b: Scheme, org: Option<Scheme>)
    requires Views(f, f') && !NoSideChosen(ord, a, b, org)
    ensures multiset(MapAll(f', Composed(ord, b, a, org))) != multiset(MapAll(f, Composed(ord, a, b, org)))
  {
    var c :| c in ComponentsOf(ord, a, b, org) && SplitsOneSide(RelationOf(ord, a, b, org, c));
    var q := WholeSideSomewhere(ord, a, b, org, c);
    MapHas(f', Composed(ord, b, a, org), f'(q));
    MapHas(f, Composed(ord, a, b, org), f'(q));
    forall p | p in Composed(ord, a, b, org) ensures f(p) != f'(q) {
      WholeSideNowhere(ord, a, b, org, c, p);
    }
  }

  // ----- the two theorems -----

  function Outlines(rs: seq<Relation>): seq<Outline> {
    MapAll(r => OutlineOf(r), rs)
  }

  function UncodedOutlines(rs: seq<Relation>): seq<Outline> {
    MapAll(r => Uncoded(OutlineOf(r)), rs)
  }

  /**
   * Comparing `b` with `a` gives the mirrored relations of comparing `a` with `b`, each as often, warning
   * codes included, exactly when no component makes the split choose a side.
   */
  lemma ComposedMirrorsIff(ord: BookOrder, a: Scheme, b: Scheme, org: Option<Scheme>)
    ensures multiset(Outlines(SwapAll(Composed(ord, b, a, org)))) == multiset(Outlines(Composed(ord, a, b, org)))
            <==> NoSideChosen(ord, a, b, org)
  {
    var f, f' := (r: Relation) => OutlineOf(r), (r: Relation) => OutlineOf(SwapRelation(r));
    OutlineViews(f, f');
    OutlinesMapped(Composed(ord, a, b, org), Composed(ord, b, a, org), f, f');
    if NoSideChosen(ord, a, b, org) {
      ComposedMirrors(f, f', ord, a, b, org);
    } else {
      MirrorBreaks(f, f', ord, a, b, org);
    }
  }

  lemma OutlineViews(f: Relation -> Outline, f': Relation -> Outline)
    requires forall r :: f(r) == OutlineOf(r) && f'(r) == OutlineOf(SwapRelation(r))
    ensures Views(f, f')
  {
  }

  lemma OutlinesMapped(rs: seq<Relation>, rs': seq<Relation>, f: Relation -> Outline, f': Relation -> Outline)
    requires forall r :: f(r) == OutlineOf(r) && f'(r) == OutlineOf(SwapRelation(r))
    ensures Outlines(rs) == MapAll(f, rs) && Outlines(SwapAll(rs')) == MapAll(f', rs')
  {
  }

  /** The same for the types, counts, flags and warnings of the first pass. */
  lemma FirstPassMirrorsIff(ord: BookOrder, a: Scheme, b: Scheme, org: Option<Scheme>)
    ensures multiset(UncodedOutlines(SwapAll(FirstPassAll(Composed(ord, b, a, org), b, a))))
            == multiset(UncodedOutlines(FirstPassAll(Composed(ord, a, b, org), a, b)))
            <==> NoSideChosen(ord, a, b, org)
  {
    var f := (r: Relation) => Uncoded(OutlineOf(FirstPass(r, a, b)));
    var f' := (r: Relation) => Uncoded(OutlineOf(SwapRelation(FirstPass(r, b, a))));
    FirstPassViews(a, b, f, f');
    var rs, rs' := Composed(ord, a, b, org), Composed(ord, b, a, org);
    FirstPassMapped(rs, a, b, f);
    FirstPassMappedBack(rs', a, b, f');
    if NoSideChosen(ord, a, b, org) {
      ComposedMirrors(f, f', ord, a, b, org);
    } else {
      MirrorBreaks(f, f', ord, a, b, org);
    }
  }

  lemma FirstPassMapped(rs: seq<Relation>, a: Scheme, b: Scheme, f: Relation -> Outline)
    requires forall r :: f(r) == Uncoded(OutlineOf(FirstPass(r, a, b)))
    ensures UncodedOutlines(FirstPassAll(rs, a, b)) == MapAll(f, rs)
  {
  }

  lemma FirstPassMappedBack(rs: seq<Relation>, a: Scheme, b: Scheme, f': Relation -> Outline)
    requires forall r :: f'(r) == Uncoded(OutlineOf(SwapRelation(FirstPass(r, b, a))))
    ensures UncodedOutlines(SwapAll(FirstPassAll(rs, b, a))) == MapAll(f', rs)
  {
  }

  lemma FirstPassViews(a: Scheme, b: Scheme, f: Relation -> Outline, f': Relation -> Outline)
    requires forall r :: f(r) == Uncoded(OutlineOf(FirstPass(r, a, b)))
    requires forall r :: f'(r) == Uncoded(OutlineOf(SwapRelation(FirstPass(r, b, a))))
    ensures Views(f, f')
  {
    forall r, r' | Reversed(r, r') ensures f'(r') == f(r) {
      FirstPassReversed(r, r', a, b);
    }
    forall r, r' | f'(r') == f(r) ensures r'.b == r.a {
      FirstPassKeeps(r, a, b);
      FirstPassKeeps(r', b, a);
    }
  }
}
