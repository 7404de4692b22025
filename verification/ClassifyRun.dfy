/** The classification loop, which rewrites the relation list in place, and what it guarantees. */
module ClassificationRun {
  import opened Refs
  import opened Sorting
  import opened Options
  import opened Schemes
  import opened Classification
  import Lis

  lemma PosOrder()
    ensures Lis.TotalPreorder(PosLe)
  {
  }

  /** The type of a relation with verses present on both sides, branch by branch. */
  method TypePair(ap: seq<Verse>, bp: seq<Verse>, flags: set<Flag>) returns (kind: Option<Kind>)
    requires ap != [] && bp != []
    ensures kind == BothSidesKind(ap, bp, flags)
  {
    var books := (set v | v in ap :: v.book) + (set v | v in bp :: v.book);
    if |books| > 1 {
      kind := Some(CrossBook);
    } else if (set v | v in ap :: (v.book, v.chapter)) != (set v | v in bp :: (v.book, v.chapter)) {
      kind := Some(ChapterMove);
    } else if |ap| == 1 && |bp| == 1 {
      if ap[0] == bp[0] {
        kind := None;
      } else if ap[0].verse == 0 || bp[0].verse == 0 {
        kind := Some(Verse0Title);
      } else {
        kind := Some(Renumber);
      }
    } else if ap == bp {
      kind := None;
    } else if SegmentFlag in flags {
      kind := Some(Segment);
    } else if |ap| > |bp| {
      kind := Some(Merge);
    } else if |ap| < |bp| {
      kind := Some(Split);
    } else {
      kind := Some(Renumber);
    }
  }

  /** The branches of the first pass, on the present verses of both sides. */
  method TypeOne(relation: Relation, ap: seq<Verse>, bp: seq<Verse>, bothVrs: bool) returns (r: Relation)
    ensures r == Typed(Counted(relation, ap, bp), bothVrs)
  {
    r := relation.(ap := ap, bp := bp, card := (CountOf(|ap|), CountOf(|bp|)));
    if |ap| == 0 && |bp| == 0 {
      r := r.(kind := None);
    } else if |ap| == 0 || |bp| == 0 {
      if |ap| == 0 {
        r := r.(kind := Some(if r.a != [] then Excluded else OneSided));
      } else {
        r := r.(kind := Some(if r.b != [] then Excluded else OneSided));
      }
      if NoAnchorFlag in r.flags {
        r := r.(warn := true);
        if r.a != [] {
          r := r.(codesA := r.codesA + {"no_org_anchor"});
        } else {
          r := r.(codesB := r.codesB + {"no_org_anchor"});
        }
      }
    } else {
      var kind := TypePair(ap, bp, r.flags);
      r := r.(kind := kind);
      if kind.Some? && kind.value in {Merge, Split, Segment} && !bothVrs {
        r := r.(flags := r.flags + {ApproxFlag});
      }
    }
  }

  class RelationTable {
    var items: seq<Relation>

    constructor (rs: seq<Relation>)
      ensures items == rs
    {
      items := rs;
    }

    /** First pass over one relation. */
    method ClassifyOne(i: nat, sideA: Scheme, sideB: Scheme)
      requires i < |items|
      modifies this
      ensures items == old(items)[i := FirstPass(old(items[i]), sideA, sideB)]
    {
      var r := TypeOne(items[i], Present(items[i].a, sideA.excluded), Present(items[i].b, sideB.excluded), sideA.hasVrs && sideB.hasVrs);
      items := items[i := r];
    }

    method ClassifyEach(sideA: Scheme, sideB: Scheme)
      modifies this
      ensures items == FirstPassAll(old(items), sideA, sideB)
    {
      ghost var input := items;
      for i := 0 to |items|
        invariant |items| == |input|
        invariant forall j :: 0 <= j < i ==> items[j] == FirstPass(input[j], sideA, sideB)
        invariant forall j :: i <= j < |items| ==> items[j] == input[j]
      {
        ClassifyOne(i, sideA, sideB);
      }
    }

    /** Classify every relation in place: a first pass, then the inversions of each A-side book. */
    method Classify(ord: BookOrder, sideA: Scheme, sideB: Scheme)
      modifies this
      ensures Classified(ord, old(items), sideA, sideB, items)
    {
      ClassifyEach(sideA, sideB);
      ghost var marked := InvertBooks(ord);
    }

    /** Mark the inversions of every A-side book. */
    method InvertBooks(ord: BookOrder) returns (ghost marked: set<nat>)
      modifies this
      ensures Marking(ord, old(items), marked) && items == Mark(old(items), marked)
    {
      ghost var first := items;
      var byBook := GroupByBook();
      var books := byBook.Keys;
      marked := {};
      assert items == Mark(first, marked);
      forall book | book !in books ensures BookMarked(ord, first, book, marked) {
        assert BookIndices(first, book) == [];
        EmptyGroupMarked(ord, first, book, marked);
      }
      while books != {}
        invariant books <= byBook.Keys
        invariant items == Mark(first, marked)
        invariant MarkedOutside(first, marked, books)
        invariant forall book :: book !in books ==> BookMarked(ord, first, book, marked)
      {
        var book :| book in books;
        assert byBook[book] == BookIndices(first, book);
        var group := StableSort(byBook[book], KeyA(ord, items));
        MarkedSortKey(ord, first, marked, byBook[book]);
        SortMembers(byBook[book], KeyA(ord, first));
        ghost var keep := InvertBook(ord, group, first, marked);
        ghost var marked' := marked + OffBackbone(group, keep, |group|);
        MarksSettle(ord, first, book, marked, marked', keep, books);
        marked := marked';
        books := books - {book};
      }
    }

    /** Bucket the two-sided relations by the book their A side starts in. */
    method GroupByBook() returns (byBook: map<string, seq<nat>>)
      ensures Buckets(byBook, items)
    {
      byBook := map[];
      for i := 0 to |items|
        invariant Buckets(byBook, items[..i])
      {
        BucketStep(byBook, items[..i], items[i]);
        assert items[..i + 1] == items[..i] + [items[i]];
        if TwoSided(items[i]) {
          var book := items[i].ap[0].book;
          byBook := byBook[book := Bucket(byBook, book) + [i]];
        }
      }
      assert items[..|items|] == items;
    }

    /** Mark the relations of one book that leave its longest backbone. */
    method InvertBook(ord: BookOrder, group: seq<nat>, ghost first: seq<Relation>, ghost marked: set<nat>)
        returns (ghost keep: set<nat>)
      requires items == Mark(first, marked) && forall i :: i in group ==> i < |first|
      modifies this
      ensures Lis.LongestBackbone(PosLe, KeysB(ord, first, group), keep)
      ensures items == Mark(first, marked + OffBackbone(group, keep, |group|))
    {
      MarkKeepsKeys(ord, first, marked, group);
      PosOrder();
      var kept := Lis.LisKeep(PosLe, KeysB(ord, items, group));
      keep := kept;
      assert marked + OffBackbone(group, keep, 0) == marked;
      for index := 0 to |group|
        invariant items == Mark(first, marked + OffBackbone(group, keep, index))
      {
        assert group[index] in group;
        MarkOneMore(first, marked, group, keep, index);
        if index !in kept {
          items := items[group[index] := items[group[index]].(kind := Some(OrderInversion))];
        }
      }
    }
  }

  /** Every bucket holds the indices of its book, and books without a bucket have none. */
  ghost predicate Buckets(byBook: map<string, seq<nat>>, rs: seq<Relation>) {
    forall book :: Bucket(byBook, book) == BookIndices(rs, book)
  }

  function Bucket(byBook: map<string, seq<nat>>, book: string): seq<nat> {
    if book in byBook then byBook[book] else []
  }

  lemma IndicesSnoc(rs: seq<Relation>, r: Relation, book: string)
    ensures BookIndices(rs + [r], book)
            == BookIndices(rs, book) + (if OfBookA(r, book) then [|rs|] else [])
  {
    assert (rs + [r])[..|rs|] == rs;
  }

  /** Put relation `i` into the bucket of its book. */
  function Bucketed(byBook: map<string, seq<nat>>, i: nat, r: Relation): map<string, seq<nat>> {
    if !TwoSided(r) then byBook else byBook[r.ap[0].book := Bucket(byBook, r.ap[0].book) + [i]]
  }

  lemma BucketOne(byBook: map<string, seq<nat>>, i: nat, r: Relation, book: string)
    ensures Bucket(Bucketed(byBook, i, r), book) == Bucket(byBook, book) + (if OfBookA(r, book) then [i] else [])
  {
  }

  lemma BucketStep(byBook: map<string, seq<nat>>, rs: seq<Relation>, r: Relation)
    requires Buckets(byBook, rs)
    ensures Buckets(Bucketed(byBook, |rs|, r), rs + [r])
  {
    forall book ensures Bucket(Bucketed(byBook, |rs|, r), book) == BookIndices(rs + [r], book) {
      BucketOne(byBook, |rs|, r, book);
      IndicesSnoc(rs, r, book);
    }
  }

  /** The relations of a group, up to position `n`, that are not kept. */
  function OffBackbone(group: seq<nat>, keep: set<nat>, n: nat): (off: set<nat>)
    requires n <= |group|
    ensures forall i :: i in off <==> exists k :: 0 <= k < n && k !in keep && group[k] == i
  {
    if n == 0 then {}
    else OffBackbone(group, keep, n - 1) + (if n - 1 in keep then {} else {group[n - 1]})
  }

  lemma MarkOneMore(first: seq<Relation>, marked: set<nat>, group: seq<nat>, keep: set<nat>, index: nat)
    requires index < |group| && group[index] < |first|
    ensures var before, after := marked + OffBackbone(group, keep, index), marked + OffBackbone(group, keep, index + 1);
            var i := group[index];
            Mark(first, after) == if index in keep then Mark(first, before)
                                  else Mark(first, before)[i := Mark(first, before)[i].(kind := Some(OrderInversion))]
  {
    var before, after := marked + OffBackbone(group, keep, index), marked + OffBackbone(group, keep, index + 1);
    if index in keep {
      assert after == before;
    } else {
      assert after == before + {group[index]};
    }
  }

  lemma MarkKeepsKeys(ord: BookOrder, first: seq<Relation>, marked: set<nat>, group: seq<nat>)
    ensures KeysB(ord, Mark(first, marked), group) == KeysB(ord, first, group)
  {
  }

  lemma {:induction false} InsertCongruent(x: nat, xs: seq<nat>, f: nat -> Pos, g: nat -> Pos)
    requires f(x) == g(x) && forall y :: y in xs ==> f(y) == g(y)
    ensures Insert(x, xs, f) == Insert(x, xs, g)
  {
    if xs != [] {
      InsertCongruent(x, xs[1..], f, g);
    }
  }

  lemma {:induction false} SortCongruent(xs: seq<nat>, f: nat -> Pos, g: nat -> Pos)
    requires forall y :: y in xs ==> f(y) == g(y)
    ensures StableSort(xs, f) == StableSort(xs, g)
  {
    if xs != [] {
      SortCongruent(xs[1..], f, g);
      SortMembers(xs[1..], f);
      InsertCongruent(xs[0], StableSort(xs[1..], f), f, g);
    }
  }

  lemma MarkedSortKey(ord: BookOrder, first: seq<Relation>, marked: set<nat>, xs: seq<nat>)
    ensures StableSort(xs, KeyA(ord, Mark(first, marked))) == StableSort(xs, KeyA(ord, first))
  {
    forall y | y in xs ensures KeyA(ord, Mark(first, marked))(y) == KeyA(ord, first)(y) {
    }
    SortCongruent(xs, KeyA(ord, Mark(first, marked)), KeyA(ord, first));
  }

  lemma EmptyGroupMarked(ord: BookOrder, first: seq<Relation>, book: string, marked: set<nat>)
    requires BookIndices(first, book) == []
    ensures BookMarked(ord, first, book, marked)
  {
    var g := BookGroup(ord, first, book);
    assert g == [];
    var none: set<nat> := {};
    forall other: set<nat> | Lis.Backbone(PosLe, KeysB(ord, first, g), other) ensures |other| <= |none| {
      assert other == none;
    }
    assert MarkedOff(ord, first, g, marked, none);
  }

  /** Marks made so far belong to books already handled. */
  ghost predicate MarkedOutside(first: seq<Relation>, marked: set<nat>, todo: set<string>) {
    forall i :: i in marked ==> i < |first| && TwoSided(first[i]) && first[i].ap[0].book !in todo
  }

  lemma MarksSettle(ord: BookOrder, first: seq<Relation>, book: string, marked: set<nat>, marked': set<nat>,
                    keep: set<nat>, todo: set<string>)
    requires book in todo && MarkedOutside(first, marked, todo)
    requires Lis.LongestBackbone(PosLe, KeysB(ord, first, BookGroup(ord, first, book)), keep)
    requires marked' == marked + OffBackbone(BookGroup(ord, first, book), keep, |BookGroup(ord, first, book)|)
    requires forall other :: other !in todo ==> BookMarked(ord, first, other, marked)
    ensures MarkedOutside(first, marked', todo - {book})
    ensures forall other :: other !in todo - {book} ==> BookMarked(ord, first, other, marked')
  {
    var g := BookGroup(ord, first, book);
    var off := OffBackbone(g, keep, |g|);
    SortMembers(BookIndices(first, book), KeyA(ord, first));
    forall i | i in off ensures i < |first| && TwoSided(first[i]) && first[i].ap[0].book == book {
      assert i in g && i in BookIndices(first, book);
    }
    forall other | other !in todo - {book} ensures BookMarked(ord, first, other, marked') {
      if other == book {
        forall i | i in g ensures i in marked' <==> i in off {
          assert i in BookIndices(first, book);
        }
        GroupMarked(ord, first, book, marked', keep);
      } else {
        OtherBookUnmoved(ord, first, book, other, marked, marked');
      }
    }
  }

  lemma OtherBookUnmoved(ord: BookOrder, first: seq<Relation>, book: string, other: string, marked: set<nat>, marked': set<nat>)
    requires other != book && BookMarked(ord, first, other, marked) && marked <= marked'
    requires forall i :: i in marked' - marked ==> i < |first| && TwoSided(first[i]) && first[i].ap[0].book == book
    ensures BookMarked(ord, first, other, marked')
  {
    var h := BookGroup(ord, first, other);
    SortMembers(BookIndices(first, other), KeyA(ord, first));
    forall i | i in h ensures i in marked' <==> i in marked {
      assert i in BookIndices(first, other);
      assert i in marked' && i !in marked ==> i in marked' - marked;
    }
    var keep: set<nat> :| MarkedOff(ord, first, h, marked, keep);
    forall k | 0 <= k < |h| ensures h[k] in marked' <==> k !in keep {
      assert h[k] in h;
    }
    assert MarkedOff(ord, first, h, marked', keep);
  }

  /** Marking a group's leftovers settles that book, whatever other books have marked. */
  lemma GroupMarked(ord: BookOrder, first: seq<Relation>, book: string, marked: set<nat>, keep: set<nat>)
    requires Lis.LongestBackbone(PosLe, KeysB(ord, first, BookGroup(ord, first, book)), keep)
    requires forall i :: i in BookGroup(ord, first, book) ==>
      (i in marked <==> i in OffBackbone(BookGroup(ord, first, book), keep, |BookGroup(ord, first, book)|))
    ensures BookMarked(ord, first, book, marked)
  {
    var g := BookGroup(ord, first, book);
    GroupDistinct(ord, first, book);
    forall k | 0 <= k < |g| ensures g[k] in marked <==> k !in keep {
      assert forall j :: 0 <= j < |g| && g[j] == g[k] ==> j == k;
      assert g[k] in g;
    }
    assert MarkedOff(ord, first, g, marked, keep);
  }

  /** A sorted group names every relation once. */
  lemma GroupDistinct(ord: BookOrder, rs: seq<Relation>, book: string)
    ensures forall j, k :: 0 <= j < k < |BookGroup(ord, rs, book)| ==>
      BookGroup(ord, rs, book)[j] != BookGroup(ord, rs, book)[k]
  {
    var xs, g := BookIndices(rs, book), BookGroup(ord, rs, book);
    SortSorts(xs, KeyA(ord, rs));
    forall j, k | 0 <= j < k < |g| ensures g[j] != g[k] {
      if g[j] == g[k] {
        TwiceInMultiset(g, j, k);
        OnceInMultiset(xs, g[j]);
      }
    }
  }

  lemma TwiceInMultiset(s: seq<nat>, j: nat, k: nat)
    requires j < k < |s| && s[j] == s[k]
    ensures multiset(s)[s[j]] >= 2
  {
    assert s == s[..k] + s[k..];
    assert s[j] in s[..k] && s[k] in s[k..];
  }

  lemma {:induction false} OnceInMultiset(s: seq<nat>, x: nat)
    requires forall j, k :: 0 <= j < k < |s| ==> s[j] < s[k]
    ensures multiset(s)[x] <= 1
  {
    if s != [] {
      var last := |s| - 1;
      OnceInMultiset(s[..last], x);
      assert s == s[..last] + [s[last]];
      if s[last] == x && x in s[..last] {
        assert false;
      }
      assert s[last] == x ==> x !in multiset(s[..last]);
    }
  }
}
