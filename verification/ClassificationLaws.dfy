/** What the inversion pass promises about any classified comparison. */
module ClassificationLaws {
  import opened Refs
  import opened Sorting
  import opened Options
  import opened Schemes
  import opened Classification
  import opened ClassificationRun
  import Lis

  // ----- what the types of the first pass mean -----

  /** All present verses, of both sides, stand in one book. */
  ghost predicate OneBook(ap: seq<Verse>, bp: seq<Verse>) {
    forall v, w :: v in ap + bp && w in ap + bp ==> v.book == w.book
  }

  predicate VisitsChapter(vs: seq<Verse>, v: Verse) {
    exists w :: w in vs && w.book == v.book && w.chapter == v.chapter
  }

  /** Each side visits every chapter of the other. */
  ghost predicate SameChapters(ap: seq<Verse>, bp: seq<Verse>) {
    && (forall v :: v in ap ==> VisitsChapter(bp, v))
    && (forall v :: v in bp ==> VisitsChapter(ap, v))
  }

  predicate Single(ap: seq<Verse>, bp: seq<Verse>) {
    |ap| == 1 && |bp| == 1
  }

  predicate TitleVerse(vs: seq<Verse>) {
    vs != [] && vs[0].verse == 0
  }

  lemma ManyIff<T>(s: set<T>)
    ensures |s| > 1 <==> exists x, y :: x in s && y in s && x != y
  {
    if s != {} {
      var x :| x in s;
      assert |s - {x}| == |s| - 1;
      if |s| > 1 {
        var y :| y in s - {x};
      } else {
        assert s - {x} == {};
      }
      if u, v :| u in s && v in s && u != v {
        SmallerSet({u, v}, s);
      }
    }
  }

  lemma ManyBooksIff(ap: seq<Verse>, bp: seq<Verse>)
    ensures |BookSet(ap) + BookSet(bp)| > 1 <==> !OneBook(ap, bp)
  {
    ManyIff(BookSet(ap) + BookSet(bp));
    var books := BookSet(ap) + BookSet(bp);
    if !OneBook(ap, bp) {
      var v, w :| v in ap + bp && w in ap + bp && v.book != w.book;
      assert v.book in books && w.book in books;
    }
    if x, y :| x in books && y in books && x != y {
      var v :| v in ap + bp && v.book == x;
      var w :| w in ap + bp && w.book == y;
    }
  }

  lemma {:induction false} SmallerSet<T>(small: set<T>, large: set<T>)
    requires small <= large
    ensures |small| <= |large|
  {
    if small != {} {
      var x :| x in small;
      SmallerSet(small - {x}, large - {x});
    }
  }

  lemma SameChaptersIff(ap: seq<Verse>, bp: seq<Verse>)
    ensures ChapterSet(ap) == ChapterSet(bp) <==> SameChapters(ap, bp)
  {
    if ChapterSet(ap) == ChapterSet(bp) {
      forall v | v in ap ensures VisitsChapter(bp, v) {
        assert (v.book, v.chapter) in ChapterSet(bp);
      }
      forall v | v in bp ensures VisitsChapter(ap, v) {
        assert (v.book, v.chapter) in ChapterSet(ap);
      }
    }
    if SameChapters(ap, bp) {
      forall c ensures c in ChapterSet(ap) <==> c in ChapterSet(bp) {
      }
    }
  }

  /** What each type says about two present verse lists, of one book or of more, in the same chapters or not. */
  predicate KindSays(kind: Option<Kind>, oneBook: bool, sameChapters: bool, ap: seq<Verse>, bp: seq<Verse>, flags: set<Flag>) {
    var differs := oneBook && sameChapters && ap != bp;
    var plain := differs && !Single(ap, bp) && SegmentFlag !in flags;
    match kind
    case None => oneBook && ap == bp
    case Some(CrossBook) => !oneBook
    case Some(ChapterMove) => oneBook && !sameChapters
    case Some(Verse0Title) => differs && Single(ap, bp) && (TitleVerse(ap) || TitleVerse(bp))
    case Some(Segment) => differs && !Single(ap, bp) && SegmentFlag in flags
    case Some(Merge) => plain && |ap| > |bp|
    case Some(Split) => plain && |ap| < |bp|
    case Some(Renumber) =>
      || (differs && Single(ap, bp) && !TitleVerse(ap) && !TitleVerse(bp))
      || (plain && |ap| == |bp|)
    case _ => false
  }

  ghost predicate KindFollows(kind: Option<Kind>, ap: seq<Verse>, bp: seq<Verse>, flags: set<Flag>) {
    KindSays(kind, OneBook(ap, bp), SameChapters(ap, bp), ap, bp, flags)
  }

  /** Two present sides have a type exactly when that type follows from them: the cases exclude each other. */
  lemma PairMeans(ap: seq<Verse>, bp: seq<Verse>, flags: set<Flag>, kind: Option<Kind>)
    requires ap != [] && bp != []
    ensures kind == BothSidesKind(ap, bp, flags) <==> KindFollows(kind, ap, bp, flags)
  {
    ManyBooksIff(ap, bp);
    SameChaptersIff(ap, bp);
    CascadeSays(ap, bp, flags, OneBook(ap, bp), SameChapters(ap, bp), kind);
  }

  lemma CascadeSays(ap: seq<Verse>, bp: seq<Verse>, flags: set<Flag>, oneBook: bool, sameChapters: bool, kind: Option<Kind>)
    requires ap != [] && bp != []
    requires oneBook <==> |BookSet(ap) + BookSet(bp)| <= 1
    requires sameChapters <==> ChapterSet(ap) == ChapterSet(bp)
    ensures kind == BothSidesKind(ap, bp, flags) <==> KindSays(kind, oneBook, sameChapters, ap, bp, flags)
  {
    assert Single(ap, bp) ==> (ap == bp <==> ap[0] == bp[0]);
    assert ap == bp ==> sameChapters;
  }

  /** What the type `t.kind` of a relation `r` says about its listed and its present verses. */
  ghost predicate TypeSays(r: Relation, t: Relation) {
    if TwoSided(t) then forall kind :: t.kind == kind <==> KindFollows(kind, t.ap, t.bp, r.flags)
    else
      && (t.kind == None <==> t.ap == [] && t.bp == [])
      && (t.kind == Some(Excluded) <==> (t.ap == [] && t.bp != [] && t.a != []) || (t.bp == [] && t.ap != [] && t.b != []))
      && (t.kind == Some(OneSided) <==> (t.bp != [] && t.a == []) || (t.ap != [] && t.b == []))
  }

  /** The approximate flag and the warning that come with a type. */
  predicate MarksSay(r: Relation, t: Relation, bothVrs: bool) {
    && (ApproxFlag in t.flags <==>
        ApproxFlag in r.flags || (t.kind in {Some(Merge), Some(Split), Some(Segment)} && !bothVrs))
    && (t.warn <==> r.warn || (t.kind in {Some(Excluded), Some(OneSided)} && NoAnchorFlag in r.flags))
  }

  lemma LoneMeans(r: Relation)
    requires r.ap == [] <==> r.bp != []
    requires (r.a == [] ==> r.ap == []) && (r.b == [] ==> r.bp == [])
    ensures var t := LoneTyped(r); TypeSays(r, t) && forall bothVrs :: MarksSay(r, t, bothVrs)
  {
  }

  lemma PairTypedMeans(r: Relation, kind: Option<Kind>, bothVrs: bool)
    requires r.ap != [] && r.bp != [] && kind == BothSidesKind(r.ap, r.bp, r.flags)
    ensures var t := PairTyped(r, kind, bothVrs); TypeSays(r, t) && MarksSay(r, t, bothVrs)
  {
    KindNeverInverts(r.ap, r.bp, r.flags);
    forall k ensures k == kind <==> KindFollows(k, r.ap, r.bp, r.flags) {
      PairMeans(r.ap, r.bp, r.flags, k);
    }
  }

  /**
   * What the first pass says: two present sides get the one type that follows from their verses; else
   * there is no type exactly when nothing is present, an exclusion exactly when the absent side lists
   * verses, a one-sided type exactly when it lists none. Flags and warnings come with these types only.
   */
  lemma FirstPassMeans(r: Relation, a: Scheme, b: Scheme)
    ensures TypeSays(r, FirstPass(r, a, b)) && MarksSay(r, FirstPass(r, a, b), a.hasVrs && b.hasVrs)
  {
    PresentOfNone(r.a, a.excluded);
    PresentOfNone(r.b, b.excluded);
    var c := Counted(r, Present(r.a, a.excluded), Present(r.b, b.excluded));
    if c.ap != [] && c.bp != [] {
      PairTypedMeans(c, BothSidesKind(c.ap, c.bp, c.flags), a.hasVrs && b.hasVrs);
    } else if c.ap != [] || c.bp != [] {
      LoneMeans(c);
    }
  }

  lemma PresentOfNone(vs: seq<Verse>, excluded: set<Verse>)
    ensures vs == [] ==> Present(vs, excluded) == []
  {
  }

  // ----- inversions -----

  predicate Inverted(r: Relation) {
    r.kind == Some(OrderInversion)
  }

  /** Two relations of one A-side book that are not inversions are in the same order on side B. */
  lemma KeptRelationsKeepOrder(ord: BookOrder, rs: seq<Relation>, a: Scheme, b: Scheme, out: seq<Relation>, i: nat, j: nat)
    requires Classified(ord, rs, a, b, out) && i < |out| && j < |out|
    requires TwoSided(out[i]) && TwoSided(out[j]) && out[i].ap[0].book == out[j].ap[0].book
    requires !Inverted(out[i]) && !Inverted(out[j])
    requires !PosLe(VersePos(ord, out[j].ap[0]), VersePos(ord, out[i].ap[0]))
    ensures PosLe(VersePos(ord, out[i].bp[0]), VersePos(ord, out[j].bp[0]))
  {
    var first := FirstPassAll(rs, a, b);
    var marked: set<nat> :| Marking(ord, first, marked) && out == Mark(first, marked);
    var book := out[i].ap[0].book;
    var g := BookGroup(ord, first, book);
    assert BookMarked(ord, first, book, marked);
    var keep: set<nat> :| MarkedOff(ord, first, g, marked, keep);
    var k := PositionOf(ord, first, book, i);
    var l := PositionOf(ord, first, book, j);
    if l <= k {
      GroupAscends(ord, first, book, l, k);
    }
    assert k in keep && l in keep && k < l;
    var keys := KeysB(ord, first, g);
    assert PosLe(keys[k], keys[l]);
  }

  /** A book's group is in the order of its A keys. */
  lemma GroupAscends(ord: BookOrder, first: seq<Relation>, book: string, k: nat, l: nat)
    requires k <= l < |BookGroup(ord, first, book)|
    ensures var g := BookGroup(ord, first, book); PosLe(KeyA(ord, first)(g[k]), KeyA(ord, first)(g[l]))
  {
    SortSorts(BookIndices(first, book), KeyA(ord, first));
  }

  lemma PositionOf(ord: BookOrder, first: seq<Relation>, book: string, i: nat) returns (k: nat)
    requires i < |first| && TwoSided(first[i]) && first[i].ap[0].book == book
    ensures k < |BookGroup(ord, first, book)| && BookGroup(ord, first, book)[k] == i
  {
    var g := BookGroup(ord, first, book);
    SortMembers(BookIndices(first, book), KeyA(ord, first));
    assert i in g;
    k :| 0 <= k < |g| && g[k] == i;
  }

  /** The relations of a group that a set removes. */
  function Removed(g: seq<nat>, removed: set<nat>): set<nat> {
    set i | i in g && i in removed
  }

  /** The positions of a group that a set leaves. */
  function Left(g: seq<nat>, removed: set<nat>): set<nat> {
    set k: nat | k < |g| && g[k] !in removed
  }

  lemma RemovedSnoc(init: seq<nat>, last: nat, removed: set<nat>)
    ensures Removed(init + [last], removed) == Removed(init, removed) + (if last in removed then {last} else {})
  {
  }

  lemma LeftSnoc(init: seq<nat>, last: nat, removed: set<nat>)
    ensures Left(init + [last], removed) == Left(init, removed) + (if last in removed then {} else {|init|})
  {
  }

  lemma OneMoreCounted(init: seq<nat>, last: nat, removed: set<nat>)
    requires last !in init
    ensures |Left(init + [last], removed)| + |Removed(init + [last], removed)|
            == |Left(init, removed)| + |Removed(init, removed)| + 1
  {
    RemovedSnoc(init, last, removed);
    LeftSnoc(init, last, removed);
    assert last !in Removed(init, removed) && |init| !in Left(init, removed);
  }

  /** Positions left and relations removed add up to the group. */
  lemma {:induction false} LeftPlusRemoved(g: seq<nat>, removed: set<nat>)
    requires forall j, k :: 0 <= j < k < |g| ==> g[j] != g[k]
    ensures |Left(g, removed)| + |Removed(g, removed)| == |g|
  {
    if g != [] {
      var init, last := g[..|g| - 1], g[|g| - 1];
      assert g == init + [last] && last !in init;
      LeftPlusRemoved(init, removed);
      OneMoreCounted(init, last, removed);
    }
  }

  /** What is left of a group after a removal is in B order. */
  ghost predicate LeavesOrder(ord: BookOrder, first: seq<Relation>, g: seq<nat>, removed: set<nat>) {
    forall j, k :: 0 <= j < k < |g| && g[j] !in removed && g[k] !in removed ==>
      PosLe(KeyB(ord, first, g[j]), KeyB(ord, first, g[k]))
  }

  /** No removal that leaves the book in B order is smaller than the marking. */
  lemma FewestMarks(ord: BookOrder, first: seq<Relation>, marked: set<nat>, book: string, removed: set<nat>)
    requires Marking(ord, first, marked)
    requires LeavesOrder(ord, first, BookGroup(ord, first, book), removed)
    ensures LeavesOrder(ord, first, BookGroup(ord, first, book), marked)
    ensures |Removed(BookGroup(ord, first, book), marked)| <= |Removed(BookGroup(ord, first, book), removed)|
  {
    var g := BookGroup(ord, first, book);
    assert BookMarked(ord, first, book, marked);
    var keep: set<nat> :| MarkedOff(ord, first, g, marked, keep);
    var keys := KeysB(ord, first, g);
    assert Lis.Backbone(PosLe, keys, Left(g, removed));
    assert Left(g, marked) == keep;
    GroupDistinct(ord, first, book);
    LeftPlusRemoved(g, removed);
    LeftPlusRemoved(g, marked);
    forall j, k | 0 <= j < k < |g| && g[j] !in marked && g[k] !in marked
      ensures PosLe(KeyB(ord, first, g[j]), KeyB(ord, first, g[k]))
    {
      assert j in keep && k in keep && PosLe(keys[j], keys[k]);
    }
  }

  /** The relations a classification calls inversions. */
  function InvertedOf(out: seq<Relation>): set<nat> {
    set i: nat | i < |out| && Inverted(out[i])
  }

  /**
   * Dropping the inversions of a book leaves its relations in B order, and no smaller set of
   * relations does.
   */
  lemma FewestInversions(ord: BookOrder, rs: seq<Relation>, a: Scheme, b: Scheme, out: seq<Relation>, book: string, removed: set<nat>)
    requires Classified(ord, rs, a, b, out)
    requires LeavesOrder(ord, out, BookGroup(ord, out, book), removed)
    ensures LeavesOrder(ord, out, BookGroup(ord, out, book), InvertedOf(out))
    ensures |Removed(BookGroup(ord, out, book), InvertedOf(out))| <= |Removed(BookGroup(ord, out, book), removed)|
  {
    var first := FirstPassAll(rs, a, b);
    var marked: set<nat> :| Marking(ord, first, marked) && out == Mark(first, marked);
    MarkKeepsGroup(ord, first, marked, book);
    var g := BookGroup(ord, first, book);
    SameOrderLeft(ord, first, marked, g, removed);
    SameOrderLeft(ord, first, marked, g, marked);
    FewestMarks(ord, first, marked, book, removed);
    MarkedAreInverted(rs, a, b, marked);
  }

  lemma MarkedAreInverted(rs: seq<Relation>, a: Scheme, b: Scheme, marked: set<nat>)
    requires forall i :: i in marked ==> i < |rs|
    ensures InvertedOf(Mark(FirstPassAll(rs, a, b), marked)) == marked
  {
    forall i: nat | i < |rs| ensures !Inverted(FirstPassAll(rs, a, b)[i]) {
      FirstPassNeverInverts(rs[i], a, b);
    }
  }

  lemma SameOrderLeft(ord: BookOrder, first: seq<Relation>, marked: set<nat>, g: seq<nat>, removed: set<nat>)
    ensures LeavesOrder(ord, Mark(first, marked), g, removed) <==> LeavesOrder(ord, first, g, removed)
  {
    forall i ensures KeyB(ord, Mark(first, marked), i) == KeyB(ord, first, i) {
    }
  }

  lemma MarkKeepsGroup(ord: BookOrder, first: seq<Relation>, marked: set<nat>, book: string)
    ensures BookGroup(ord, Mark(first, marked), book) == BookGroup(ord, first, book)
  {
    MarkKeepsIndices(first, marked, book);
    MarkedSortKey(ord, first, marked, BookIndices(first, book));
  }

  lemma {:induction false} MarkKeepsIndices(first: seq<Relation>, marked: set<nat>, book: string)
    ensures BookIndices(Mark(first, marked), book) == BookIndices(first, book)
  {
    if first != [] {
      var last := |first| - 1;
      MarkKeepsIndices(first[..last], marked, book);
      assert Mark(first, marked)[..last] == Mark(first[..last], marked);
    }
  }
}
