/** Exchanging the two sides of a comparison: what mirrors exactly, and where the engine is one-sided. */
module SideSwap {
  import opened Refs
  import opened Sorting
  import opened Options
  import opened Schemes
  import opened Classification

  function SwapKind(k: Option<Kind>): Option<Kind> {
    match k
    case Some(Merge) => Some(Split)
    case Some(Split) => Some(Merge)
    case _ => k
  }

  function SwapRelation(r: Relation): Relation {
    r.(a := r.b, b := r.a, codesA := r.codesB, codesB := r.codesA,
       ap := r.bp, bp := r.ap, card := (r.card.1, r.card.0), kind := SwapKind(r.kind))
  }

  // ----- first pass -----

  lemma KindSwaps(ap: seq<Verse>, bp: seq<Verse>, flags: set<Flag>)
    ensures BothSidesKind(bp, ap, flags) == SwapKind(BothSidesKind(ap, bp, flags))
  {
    assert BookSet(ap) + BookSet(bp) == BookSet(bp) + BookSet(ap);
  }

  lemma PairSwaps(r: Relation, kind: Option<Kind>, vrs: bool)
    ensures SwapRelation(PairTyped(SwapRelation(r), SwapKind(kind), vrs)) == PairTyped(r, kind, vrs)
  {
  }

  lemma LoneSwaps(r: Relation)
    requires r.ap == [] <==> r.bp != []
    ensures var there, back := LoneTyped(r), SwapRelation(LoneTyped(SwapRelation(r)));
            back == there.(codesA := back.codesA, codesB := back.codesB)
  {
    if NoAnchorFlag !in r.flags {
      assert LoneTyped(SwapRelation(r)).codesA == r.codesB;
    } else if r.ap == [] {
    } else {
    }
  }

  lemma TypedSwaps(r: Relation, vrs: bool)
    requires r.kind == None
    ensures var there, back := Typed(r, vrs), SwapRelation(Typed(SwapRelation(r), vrs));
            back == there.(codesA := back.codesA, codesB := back.codesB)
  {
    if r.ap == [] && r.bp == [] {
    } else if r.ap == [] || r.bp == [] {
      LoneSwaps(r);
    } else {
      KindSwaps(r.ap, r.bp, r.flags);
      PairSwaps(r, BothSidesKind(r.ap, r.bp, r.flags), vrs);
    }
  }

  /** The first pass mirrors everything but its warning code: merges and splits trade places, cardinalities reverse. */
  lemma FirstPassSwaps(r: Relation, a: Scheme, b: Scheme)
    requires r.kind == None
    ensures var there, back := FirstPass(r, a, b), SwapRelation(FirstPass(SwapRelation(r), b, a));
            back == there.(codesA := back.codesA, codesB := back.codesB)
  {
    var ap, bp := Present(r.a, a.excluded), Present(r.b, b.excluded);
    var seen := Counted(r, ap, bp);
    TypedSwaps(seen, a.hasVrs && b.hasVrs);
    assert Counted(SwapRelation(r), bp, ap) == SwapRelation(seen);
  }

  /** The relation whose `no_org_anchor` code depends on which scheme stands on side A. */
  predicate CodesOneSided(r: Relation, a: Scheme, b: Scheme) {
    var ap, bp := Present(r.a, a.excluded), Present(r.b, b.excluded);
    && NoAnchorFlag in r.flags && r.a != [] && r.b != [] && (ap == [] <==> bp != [])
    && !("no_org_anchor" in r.codesA && "no_org_anchor" in r.codesB)
  }

  /** The code goes to side A whenever side A lists a verse, so it mirrors exactly when that choice does not arise. */
  lemma FirstPassCodesSwapIff(r: Relation, a: Scheme, b: Scheme)
    requires r.kind == None
    ensures SwapRelation(FirstPass(SwapRelation(r), b, a)) == FirstPass(r, a, b) <==> !CodesOneSided(r, a, b)
  {
    FirstPassSwaps(r, a, b);
    var ap, bp := Present(r.a, a.excluded), Present(r.b, b.excluded);
    var code := "no_org_anchor";
    var there, back := FirstPass(r, a, b), SwapRelation(FirstPass(SwapRelation(r), b, a));
    if CodesOneSided(r, a, b) {
      assert code in there.codesA && code in back.codesB;
      assert there.codesA != back.codesA || there.codesB != back.codesB;
    } else if NoAnchorFlag in r.flags && (ap == [] <==> bp != []) {
      if r.a != [] && r.b != [] {
        assert r.codesA + {code} == r.codesA && r.codesB + {code} == r.codesB;
      }
    }
  }

  // ----- alternate forms -----

  function SwapAll(rs: seq<Relation>): seq<Relation> {
    seq(|rs|, i requires 0 <= i < |rs| => SwapRelation(rs[i]))
  }

  /** Two sides that share no book and both span several: only then does it matter which side is split. */
  predicate SplitsOneSide(r: Relation) {
    BookSet(r.a) * BookSet(r.b) == {} && |BookList(r.a)| > 1 && |BookList(r.b)| > 1
  }

  lemma SwapAllPieces(r: Relation, books: seq<string>)
    requires r.kind == None
    ensures SwapAll(PiecesByBookA(SwapRelation(r), books)) == PiecesByBookB(r, books)
    ensures SwapAll(PiecesByBookB(SwapRelation(r), books)) == PiecesByBookA(r, books)
    ensures SwapAll(PiecesByCommonBook(SwapRelation(r), books)) == PiecesByCommonBook(r, books)
  {
  }

  lemma RemoveAt<T>(xs: seq<T>, i: nat)
    requires i < |xs|
    ensures multiset(xs) == multiset{xs[i]} + multiset(xs[..i] + xs[i + 1..])
  {
    assert xs == xs[..i] + [xs[i]] + xs[i + 1..];
  }

  lemma CancelOne<T>(x: T, m: multiset<T>, n: multiset<T>)
    requires multiset{x} + m == multiset{x} + n
    ensures m == n
  {
    assert m == (multiset{x} + m) - multiset{x};
    assert n == (multiset{x} + n) - multiset{x};
  }

  function BookPiece(r: Relation, book: string): Relation {
    Piece(r, OfBook(r.a, book), OfBook(r.b, book), false)
  }

  lemma PiecesRemove(r: Relation, xs: seq<string>, i: nat)
    requires i < |xs|
    ensures multiset(PiecesByCommonBook(r, xs))
            == multiset{BookPiece(r, xs[i])} + multiset(PiecesByCommonBook(r, xs[..i] + xs[i + 1..]))
  {
    var ps := PiecesByCommonBook(r, xs);
    RemoveAt(ps, i);
    assert ps[..i] + ps[i + 1..] == PiecesByCommonBook(r, xs[..i] + xs[i + 1..]);
  }

  lemma SameWithout<T>(xs: seq<T>, ys: seq<T>) returns (i: nat)
    requires multiset(xs) == multiset(ys) && xs != []
    ensures i < |ys| && ys[i] == xs[0] && multiset(xs[..0] + xs[1..]) == multiset(ys[..i] + ys[i + 1..])
  {
    assert xs[0] in multiset(ys);
    i :| 0 <= i < |ys| && ys[i] == xs[0];
    RemoveAt(xs, 0);
    RemoveAt(ys, i);
    CancelOne(xs[0], multiset(xs[..0] + xs[1..]), multiset(ys[..i] + ys[i + 1..]));
  }

  lemma {:induction false} PiecesFollowBooks(r: Relation, xs: seq<string>, ys: seq<string>)
    requires multiset(xs) == multiset(ys)
    ensures multiset(PiecesByCommonBook(r, xs)) == multiset(PiecesByCommonBook(r, ys))
    decreases |xs|
  {
    if xs == [] {
      assert |multiset(ys)| == 0;
    } else {
      var i := SameWithout(xs, ys);
      PiecesFollowBooks(r, xs[..0] + xs[1..], ys[..i] + ys[i + 1..]);
      PiecesRemove(r, xs, 0);
      PiecesRemove(r, ys, i);
    }
  }

  /** The books both sides share are the same books whichever side lists them. */
  lemma CommonBooksMatch(ord: BookOrder, r: Relation, c: set<string>)
    requires c == BookSet(r.a) * BookSet(r.b)
    ensures multiset(Sorted(ord, KeepBooks(BookList(r.a), c))) == multiset(Sorted(ord, KeepBooks(BookList(r.b), c)))
  {
    var xs, ys := KeepBooks(BookList(r.a), c), KeepBooks(BookList(r.b), c);
    KeepDistinct(BookList(r.a), c);
    KeepDistinct(BookList(r.b), c);
    forall x ensures multiset(xs)[x] == multiset(ys)[x] {
      DistinctMultiset(xs, x);
      DistinctMultiset(ys, x);
    }
    SortSorts(xs, book => Pos(ord(book), 0, 0));
    SortSorts(ys, book => Pos(ord(book), 0, 0));
  }

  lemma SwapLeftovers(r: Relation, c: set<string>)
    requires r.kind == None
    ensures SwapAll(Leftovers(SwapRelation(r), c)) == Leftovers(r, c)
  {
  }

  lemma SwapAllConcat(xs: seq<Relation>, ys: seq<Relation>)
    ensures SwapAll(xs + ys) == SwapAll(xs) + SwapAll(ys)
  {
  }

  lemma CommonBooksSwap(ord: BookOrder, r: Relation)
    requires r.kind == None && BookSet(r.a) * BookSet(r.b) != {}
    requires |BookList(r.a)| > 1 || |BookList(r.b)| > 1
    ensures multiset(SwapAll(SplitAlternates(ord, SwapRelation(r)))) == multiset(SplitAlternates(ord, r))
  {
    var c := BookSet(r.a) * BookSet(r.b);
    assert c == BookSet(r.b) * BookSet(r.a);
    var xs, ys := Sorted(ord, KeepBooks(BookList(r.a), c)), Sorted(ord, KeepBooks(BookList(r.b), c));
    CommonBooksMatch(ord, r, c);
    PiecesFollowBooks(r, xs, ys);
    SplitCommon(ord, r, c);
    SplitCommon(ord, SwapRelation(r), c);
    SwapAllConcat(PiecesByCommonBook(SwapRelation(r), ys), Leftovers(SwapRelation(r), c));
    SwapAllPieces(r, ys);
    SwapLeftovers(r, c);
  }

  /** Splitting one side's books leaves the other side whole, so the two directions cannot agree. */
  lemma OneSidedSplitDiffers(ord: BookOrder, r: Relation)
    requires SplitsOneSide(r) && r.kind == None
    ensures multiset(SwapAll(SplitAlternates(ord, SwapRelation(r)))) != multiset(SplitAlternates(ord, r))
  {
    assert BookSet(r.b) * BookSet(r.a) == {};
    var la, lb := Sorted(ord, BookList(r.a)), Sorted(ord, BookList(r.b));
    SortMembers(BookList(r.a), book => Pos(ord(book), 0, 0));
    SortMembers(BookList(r.b), book => Pos(ord(book), 0, 0));
    SwapAllPieces(r, lb);
    var there, back := PiecesByBookA(r, la), PiecesByBookB(r, lb);
    assert back[0] in multiset(back) && back[0].a == r.a;
    forall k | 0 <= k < |there| ensures there[k].a != r.a {
      OtherBookLost(r.a, la[k]);
    }
    assert back[0] !in there;
  }

  lemma OtherBookLost(vs: seq<Verse>, book: string)
    requires |BookList(vs)| > 1
    ensures OfBook(vs, book) != vs
  {
    var books := BookList(vs);
    var other := if books[0] == book then books[1] else books[0];
    assert other in books && other in BookSet(vs);
    var v :| v in vs && v.book == other;
    assert v !in OfBook(vs, book);
  }

  /** Splitting alternates mirrors, piece for piece, exactly when it does not have to pick a side. */
  lemma SplitSwapsIff(ord: BookOrder, r: Relation)
    requires r.kind == None
    ensures multiset(SwapAll(SplitAlternates(ord, SwapRelation(r)))) == multiset(SplitAlternates(ord, r))
            <==> !SplitsOneSide(r)
  {
    var la, lb := BookList(r.a), BookList(r.b);
    if SplitsOneSide(r) {
      OneSidedSplitDiffers(ord, r);
    } else if la == [] || lb == [] || (|la| == 1 && |lb| == 1) {
      assert SwapAll([SwapRelation(r)]) == [r];
    } else if BookSet(r.a) * BookSet(r.b) != {} {
      CommonBooksSwap(ord, r);
    } else {
      assert BookSet(r.b) * BookSet(r.a) == {};
      SwapAllPieces(r, Sorted(ord, la));
      SwapAllPieces(r, Sorted(ord, lb));
    }
  }

  lemma {:induction false} KeepDistinct(books: seq<string>, keep: set<string>)
    requires forall i, j :: 0 <= i < j < |books| ==> books[i] != books[j]
    ensures forall i, j :: 0 <= i < j < |KeepBooks(books, keep)| ==> KeepBooks(books, keep)[i] != KeepBooks(books, keep)[j]
  {
    if books != [] {
      KeepDistinct(books[1..], keep);
      if books[0] in keep {
        var rest := KeepBooks(books[1..], keep);
        assert KeepBooks(books, keep) == [books[0]] + rest;
        assert books[0] !in rest;
      }
    }
  }

  lemma {:induction false} DistinctMultiset(xs: seq<string>, x: string)
    requires forall i, j :: 0 <= i < j < |xs| ==> xs[i] != xs[j]
    ensures multiset(xs)[x] == if x in xs then 1 else 0
  {
    if xs != [] {
      var last := |xs| - 1;
      DistinctMultiset(xs[..last], x);
      assert xs == xs[..last] + [xs[last]];
    }
  }
}
