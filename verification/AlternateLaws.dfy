/** What splitting a component into same-book pieces keeps, drops and repeats. */
module AlternateLaws {
  import opened Refs
  import opened Sorting
  import opened Classification
  import opened SideSwap

  /** How many pieces list the verse on side A. */
  function HoldersA(ps: seq<Relation>, v: Verse): nat {
    if ps == [] then 0 else HoldersA(ps[..|ps| - 1], v) + (if v in ps[|ps| - 1].a then 1 else 0)
  }

  function HoldersB(ps: seq<Relation>, v: Verse): nat {
    if ps == [] then 0 else HoldersB(ps[..|ps| - 1], v) + (if v in ps[|ps| - 1].b then 1 else 0)
  }

  lemma {:induction false} HoldersConcat(xs: seq<Relation>, ys: seq<Relation>, v: Verse)
    ensures HoldersA(xs + ys, v) == HoldersA(xs, v) + HoldersA(ys, v)
    ensures HoldersB(xs + ys, v) == HoldersB(xs, v) + HoldersB(ys, v)
  {
    if ys == [] {
      assert xs + ys == xs;
    } else {
      HoldersConcat(xs, ys[..|ys| - 1], v);
      assert (xs + ys)[..|xs + ys| - 1] == xs + ys[..|ys| - 1];
    }
  }

  lemma HoldersSnoc(ps: seq<Relation>, p: Relation, v: Verse)
    ensures HoldersA(ps + [p], v) == HoldersA(ps, v) + (if v in p.a then 1 else 0)
    ensures HoldersB(ps + [p], v) == HoldersB(ps, v) + (if v in p.b then 1 else 0)
  {
    assert (ps + [p])[..|ps|] == ps;
  }

  ghost predicate Distinct(books: seq<string>) {
    forall i, j :: 0 <= i < j < |books| ==> books[i] != books[j]
  }

  lemma DistinctSnoc(books: seq<string>, init: seq<string>, last: string)
    requires Distinct(books) && books != [] && init == books[..|books| - 1] && last == books[|books| - 1]
    ensures books == init + [last] && Distinct(init) && last !in init
    ensures forall book :: book in books <==> book in init || book == last
  {
  }

  lemma CommonBookSnoc(r: Relation, books: seq<string>, book: string, v: Verse)
    ensures HoldersA(PiecesByCommonBook(r, books + [book]), v) == HoldersA(PiecesByCommonBook(r, books), v) + (if v in r.a && v.book == book then 1 else 0)
    ensures HoldersB(PiecesByCommonBook(r, books + [book]), v) == HoldersB(PiecesByCommonBook(r, books), v) + (if v in r.b && v.book == book then 1 else 0)
  {
    var piece := BookPiece(r, book);
    assert PiecesByCommonBook(r, books + [book]) == PiecesByCommonBook(r, books) + [piece];
    HoldersSnoc(PiecesByCommonBook(r, books), piece, v);
  }

  lemma BookASnoc(r: Relation, books: seq<string>, book: string, v: Verse)
    ensures HoldersA(PiecesByBookA(r, books + [book]), v) == HoldersA(PiecesByBookA(r, books), v) + (if v in r.a && v.book == book then 1 else 0)
    ensures HoldersB(PiecesByBookA(r, books + [book]), v) == HoldersB(PiecesByBookA(r, books), v) + (if v in r.b then 1 else 0)
  {
    var piece := Piece(r, OfBook(r.a, book), r.b, false);
    assert PiecesByBookA(r, books + [book]) == PiecesByBookA(r, books) + [piece];
    HoldersSnoc(PiecesByBookA(r, books), piece, v);
  }

  lemma BookBSnoc(r: Relation, books: seq<string>, book: string, v: Verse)
    ensures HoldersA(PiecesByBookB(r, books + [book]), v) == HoldersA(PiecesByBookB(r, books), v) + (if v in r.a then 1 else 0)
    ensures HoldersB(PiecesByBookB(r, books + [book]), v) == HoldersB(PiecesByBookB(r, books), v) + (if v in r.b && v.book == book then 1 else 0)
  {
    var piece := Piece(r, r.a, OfBook(r.b, book), false);
    assert PiecesByBookB(r, books + [book]) == PiecesByBookB(r, books) + [piece];
    HoldersSnoc(PiecesByBookB(r, books), piece, v);
  }

  /** One piece per book holds a verse of these books once, and repeats whatever is not divided. */
  lemma {:induction false} HoldersByCommonBook(r: Relation, books: seq<string>, v: Verse)
    requires Distinct(books)
    ensures HoldersA(PiecesByCommonBook(r, books), v) == if v in r.a && v.book in books then 1 else 0
    ensures HoldersB(PiecesByCommonBook(r, books), v) == if v in r.b && v.book in books then 1 else 0
  {
    if books != [] {
      var init, last := books[..|books| - 1], books[|books| - 1];
      DistinctSnoc(books, init, last);
      HoldersByCommonBook(r, init, v);
      CommonBookSnoc(r, init, last, v);
    }
  }

  lemma {:induction false} HoldersByBookA(r: Relation, books: seq<string>, v: Verse)
    requires Distinct(books)
    ensures HoldersA(PiecesByBookA(r, books), v) == if v in r.a && v.book in books then 1 else 0
    ensures HoldersB(PiecesByBookA(r, books), v) == if v in r.b then |books| else 0
  {
    if books != [] {
      var init, last := books[..|books| - 1], books[|books| - 1];
      DistinctSnoc(books, init, last);
      HoldersByBookA(r, init, v);
      BookASnoc(r, init, last, v);
    }
  }

  lemma {:induction false} HoldersByBookB(r: Relation, books: seq<string>, v: Verse)
    requires Distinct(books)
    ensures HoldersA(PiecesByBookB(r, books), v) == if v in r.a then |books| else 0
    ensures HoldersB(PiecesByBookB(r, books), v) == if v in r.b && v.book in books then 1 else 0
  {
    if books != [] {
      var init, last := books[..|books| - 1], books[|books| - 1];
      DistinctSnoc(books, init, last);
      HoldersByBookB(r, init, v);
      BookBSnoc(r, init, last, v);
    }
  }

  lemma HoldersOfOne(r: Relation, v: Verse)
    ensures HoldersA([r], v) == (if v in r.a then 1 else 0) && HoldersB([r], v) == (if v in r.b then 1 else 0)
  {
    assert [r][..0] == [];
  }

  lemma CountedTwice(xs: seq<string>, i: nat, j: nat)
    requires i < j < |xs|
    ensures xs[i] == xs[j] ==> multiset(xs)[xs[i]] >= 2
  {
    assert xs == xs[..i] + [xs[i]] + xs[i + 1..j] + [xs[j]] + xs[j + 1..];
  }

  lemma SortedDistinct(ord: BookOrder, books: seq<string>)
    requires Distinct(books)
    ensures Distinct(Sorted(ord, books)) && |Sorted(ord, books)| == |books|
    ensures forall book :: book in Sorted(ord, books) <==> book in books
  {
    var key := (book: string) => Pos(ord(book), 0, 0);
    SortSorts(books, key);
    SortMembers(books, key);
    var sorted := Sorted(ord, books);
    forall i, j | 0 <= i < j < |sorted| ensures sorted[i] != sorted[j] {
      DistinctMultiset(books, sorted[i]);
      CountedTwice(sorted, i, j);
    }
  }

  lemma BooksOf(vs: seq<Verse>, v: Verse)
    requires v in vs
    ensures v.book in BookList(vs) && v.book in BookSet(vs)
  {
  }

  /** The verse stands alone: its book is not on the other side, whose books are all on this one. */
  predicate Leftover(vs: seq<Verse>, ws: seq<Verse>, v: Verse) {
    v in vs && ws != [] && v.book !in BookSet(ws) && BookSet(ws) <= BookSet(vs)
  }

  /** The sides share no book, and this one is not the one that is divided. */
  predicate RepeatsA(r: Relation) {
    BookSet(r.a) * BookSet(r.b) == {} && |BookList(r.a)| == 1 && r.b != []
  }

  predicate RepeatsB(r: Relation) {
    BookSet(r.a) * BookSet(r.b) == {} && r.a != [] && r.b != []
  }

  /** How often the split lists a verse of side A. */
  function TimesA(r: Relation, v: Verse): nat {
    if v !in r.a || Leftover(r.a, r.b, v) then 0 else if RepeatsA(r) then |BookList(r.b)| else 1
  }

  function TimesB(r: Relation, v: Verse): nat {
    if v !in r.b || Leftover(r.b, r.a, v) then 0 else if RepeatsB(r) then |BookList(r.a)| else 1
  }

  ghost predicate Conserved(ps: seq<Relation>, r: Relation, v: Verse) {
    HoldersA(ps, v) == TimesA(r, v) && HoldersB(ps, v) == TimesB(r, v)
  }

  lemma ApartNoLeftover(r: Relation, v: Verse)
    requires r.a != [] && r.b != [] && BookSet(r.a) * BookSet(r.b) == {}
    ensures !Leftover(r.a, r.b, v) && !Leftover(r.b, r.a, v)
  {
    var x, y := r.a[0].book, r.b[0].book;
    assert x in BookSet(r.a) && y in BookSet(r.b);
    assert x !in BookSet(r.a) * BookSet(r.b) && y !in BookSet(r.a) * BookSet(r.b);
  }

  lemma ApartHolders(ord: BookOrder, r: Relation, v: Verse)
    requires r.a != [] && r.b != [] && BookSet(r.a) * BookSet(r.b) == {}
    ensures Conserved(SplitAlternates(ord, r), r, v)
  {
    var la, lb := BookList(r.a), BookList(r.b);
    BooksOf(r.a, r.a[0]);
    BooksOf(r.b, r.b[0]);
    ApartNoLeftover(r, v);
    assert v in r.a ==> v.book in la;
    assert v in r.b ==> v.book in lb;
    if |la| > 1 {
      SortedDistinct(ord, la);
      HoldersByBookA(r, Sorted(ord, la), v);
    } else if |lb| > 1 {
      SortedDistinct(ord, lb);
      HoldersByBookB(r, Sorted(ord, lb), v);
    } else {
      HoldersOfOne(r, v);
    }
  }

  lemma LeftoverHolders(r: Relation, common: set<string>, v: Verse)
    ensures HoldersA(Leftovers(r, common), v)
            == if v in r.a && v.book !in common && OutsideBooks(r.b, common) != [] then 1 else 0
    ensures HoldersB(Leftovers(r, common), v)
            == if v in r.b && v.book !in common && OutsideBooks(r.a, common) != [] then 1 else 0
  {
    var leftA, leftB := OutsideBooks(r.a, common), OutsideBooks(r.b, common);
    HoldersOfOne(Piece(r, leftA, leftB, r.warn), v);
    assert leftA == [] ==> v !in leftA;
    assert leftB == [] ==> v !in leftB;
  }

  lemma OutsideIff(vs: seq<Verse>, ws: seq<Verse>)
    ensures OutsideBooks(vs, BookSet(vs) * BookSet(ws)) == [] <==> BookSet(vs) <= BookSet(ws)
  {
    var out := OutsideBooks(vs, BookSet(vs) * BookSet(ws));
    if out != [] {
      assert out[0] in out && out[0].book in BookSet(vs);
    }
    if book :| book in BookSet(vs) && book !in BookSet(ws) {
      var v :| v in vs && v.book == book;
      assert v in out;
    }
  }

  lemma CommonLeftover(r: Relation, v: Verse)
    requires BookSet(r.a) * BookSet(r.b) != {}
    ensures var c := BookSet(r.a) * BookSet(r.b);
            && (Leftover(r.a, r.b, v) <==> v in r.a && v.book !in c && OutsideBooks(r.b, c) == [])
            && (Leftover(r.b, r.a, v) <==> v in r.b && v.book !in c && OutsideBooks(r.a, c) == [])
  {
    OutsideIff(r.a, r.b);
    OutsideIff(r.b, r.a);
    assert BookSet(r.b) * BookSet(r.a) == BookSet(r.a) * BookSet(r.b);
    assert r.a != [] && r.b != [];
    assert v in r.a ==> v.book in BookSet(r.a);
    assert v in r.b ==> v.book in BookSet(r.b);
  }

  lemma CommonHolders(ord: BookOrder, r: Relation, c: set<string>, v: Verse)
    requires c == BookSet(r.a) * BookSet(r.b) != {} && (|BookList(r.a)| > 1 || |BookList(r.b)| > 1)
    ensures Conserved(SplitAlternates(ord, r), r, v)
  {
    var kept := KeepBooks(BookList(r.a), c);
    KeepDistinct(BookList(r.a), c);
    SortedDistinct(ord, kept);
    SplitCommon(ord, r, c);
    var pieces, left := PiecesByCommonBook(r, Sorted(ord, kept)), Leftovers(r, c);
    HoldersByCommonBook(r, Sorted(ord, kept), v);
    HoldersConcat(pieces, left, v);
    LeftoverHolders(r, c, v);
    CommonLeftover(r, v);
    assert v.book in Sorted(ord, kept) <==> v.book in c;
  }

  lemma AloneHolders(ord: BookOrder, r: Relation, v: Verse)
    requires r.a == [] || r.b == []
    ensures Conserved(SplitAlternates(ord, r), r, v)
  {
    HoldersOfOne(r, v);
    assert BookSet(r.a) == {} || BookSet(r.b) == {};
    assert BookList(r.a) == [] || BookList(r.b) == [];
  }

  lemma SingleBookHolders(ord: BookOrder, r: Relation, v: Verse)
    requires BookSet(r.a) * BookSet(r.b) != {} && |BookList(r.a)| <= 1 && |BookList(r.b)| <= 1
    ensures Conserved(SplitAlternates(ord, r), r, v)
  {
    var book :| book in BookSet(r.a) * BookSet(r.b);
    OnlyBook(r.a, book);
    OnlyBook(r.b, book);
    HoldersOfOne(r, v);
  }

  lemma OnlyBook(vs: seq<Verse>, book: string)
    requires book in BookSet(vs) && |BookList(vs)| <= 1
    ensures BookList(vs) == [book] && BookSet(vs) == {book} && vs != []
  {
    assert book in BookList(vs);
    assert forall b :: b in BookSet(vs) <==> b in BookList(vs);
  }

  /**
   * How often each verse of a component comes out of the split: a leftover never, a verse of a side that
   * is not divided once for each book of the other, any other verse exactly once.
   */
  lemma SplitConserves(ord: BookOrder, r: Relation, v: Verse)
    ensures HoldersA(SplitAlternates(ord, r), v) == TimesA(r, v)
    ensures HoldersB(SplitAlternates(ord, r), v) == TimesB(r, v)
  {
    if r.a == [] || r.b == [] {
      AloneHolders(ord, r, v);
    } else if BookSet(r.a) * BookSet(r.b) == {} {
      ApartHolders(ord, r, v);
    } else if |BookList(r.a)| > 1 || |BookList(r.b)| > 1 {
      CommonHolders(ord, r, BookSet(r.a) * BookSet(r.b), v);
    } else {
      SingleBookHolders(ord, r, v);
    }
  }

  lemma {:induction false} HeldIff(ps: seq<Relation>, v: Verse)
    ensures HoldersA(ps, v) > 0 <==> exists p :: p in ps && v in p.a
    ensures HoldersB(ps, v) > 0 <==> exists p :: p in ps && v in p.b
  {
    if ps != [] {
      var init, last := ps[..|ps| - 1], ps[|ps| - 1];
      HeldIff(init, v);
      assert ps == init + [last];
      assert forall p :: p in ps <==> p in init || p == last;
    }
  }

  /** A verse is lost exactly when it is a leftover. */
  lemma SplitLosesIff(ord: BookOrder, r: Relation, v: Verse)
    ensures (v in r.a && forall p :: p in SplitAlternates(ord, r) ==> v !in p.a) <==> Leftover(r.a, r.b, v)
    ensures (v in r.b && forall p :: p in SplitAlternates(ord, r) ==> v !in p.b) <==> Leftover(r.b, r.a, v)
  {
    SplitConserves(ord, r, v);
    HeldIff(SplitAlternates(ord, r), v);
    if r.a != [] {
      BooksOf(r.a, r.a[0]);
    }
    if r.b != [] {
      BooksOf(r.b, r.b[0]);
    }
  }
}
