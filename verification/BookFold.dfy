/** Folding the one-sided events of a book that the other scheme does not have. */
module BookFolds {
  import opened Refs
  import opened Schemes
  import opened Classification
  import opened Bridges

  function SideSpan(e: Entry, onA: bool): Span {
    match e
    case Grouped(event) => if onA then event.a else event.b
    case BridgeEntry(_, a, b, _) => if onA then a else b
    case SegmentEntry(a, b, _, _) => if onA then a else b
    case BookEntry(_, a, b, _) => if onA then a else b
  }

  /** A one-sided event that starts in this book. */
  predicate OneSidedIn(e: Entry, onA: bool, book: string) {
    e.Grouped? && e.event.kind == OneSided && SideSpan(e, onA).Span? && SideSpan(e, onA).book == book
  }

  function BookTotal(chapters: seq<nat>): nat {
    if chapters == [] then 0 else chapters[0] + BookTotal(chapters[1..])
  }

  function Select(events: seq<Entry>, onA: bool, book: string): (mine: seq<Entry>)
    ensures forall e :: e in mine ==> OneSidedIn(e, onA, book)
  {
    if events == [] then []
    else (if OneSidedIn(events[0], onA, book) then [events[0]] else []) + Select(events[1..], onA, book)
  }

  function Without(events: seq<Entry>, onA: bool, book: string): (rest: seq<Entry>)
    ensures forall e :: e in rest <==> e in events && !OneSidedIn(e, onA, book)
  {
    if events == [] then []
    else (if OneSidedIn(events[0], onA, book) then [] else [events[0]]) + Without(events[1..], onA, book)
  }

  function SumOf(events: seq<Entry>): nat {
    if events == [] then 0 else (if events[0].Grouped? then events[0].event.n else 0) + SumOf(events[1..])
  }

  /** Verses of the book in one-sided events. */
  function CoveredIn(events: seq<Entry>, onA: bool, book: string): nat {
    SumOf(Select(events, onA, book))
  }

  function Whole(onA: bool, book: string, chapters: seq<nat>): Entry {
    var span := Span(book, 1, 1, |chapters|, if chapters == [] then 0 else chapters[|chapters| - 1]);
    BookEntry(onA, if onA then span else NoSpan, if onA then NoSpan else span, BookTotal(chapters))
  }

  /** The other scheme lacks the book, and at least half of its verses are in one-sided events. */
  predicate Folds(events: seq<Entry>, onA: bool, s: Scheme, other: Scheme, book: string) {
    && book in s.max && book !in other.max
    && BookTotal(s.max[book]) > 0 && 2 * CoveredIn(events, onA, book) >= BookTotal(s.max[book])
  }

  function FoldBook(events: seq<Entry>, onA: bool, s: Scheme, other: Scheme, book: string): seq<Entry> {
    if Folds(events, onA, s, other, book) then Without(events, onA, book) + [Whole(onA, book, s.max[book])] else events
  }

  function FoldBooks(events: seq<Entry>, onA: bool, s: Scheme, other: Scheme, books: seq<string>): seq<Entry> {
    if books == [] then events
    else FoldBook(FoldBooks(events, onA, s, other, books[..|books| - 1]), onA, s, other, books[|books| - 1])
  }

  /** Books of side A first, then books of side B. */
  function Fold(events: seq<Entry>, a: Scheme, b: Scheme): seq<Entry> {
    FoldBooks(FoldBooks(events, true, a, b, a.books), false, b, a, b.books)
  }

  // ----- the loops -----

  function RemoveFirst(events: seq<Entry>, e: Entry): seq<Entry> {
    if events == [] then []
    else if events[0] == e then events[1..]
    else [events[0]] + RemoveFirst(events[1..], e)
  }

  function RemoveEach(events: seq<Entry>, mine: seq<Entry>): seq<Entry>
    decreases |mine|
  {
    if mine == [] then events else RemoveEach(RemoveFirst(events, mine[0]), mine[1..])
  }

  lemma {:induction false} RemoveSkips(x: Entry, events: seq<Entry>, mine: seq<Entry>)
    requires x !in mine
    ensures RemoveEach([x] + events, mine) == [x] + RemoveEach(events, mine)
    decreases |mine|
  {
    if mine != [] {
      assert ([x] + events)[1..] == events;
      RemoveSkips(x, RemoveFirst(events, mine[0]), mine[1..]);
    }
  }

  /** Removing the first event equal to each selected one leaves exactly the others. */
  lemma {:induction false} RemoveSelected(events: seq<Entry>, onA: bool, book: string)
    ensures RemoveEach(events, Select(events, onA, book)) == Without(events, onA, book)
  {
    if events != [] {
      var x, rest := events[0], events[1..];
      var mine := Select(rest, onA, book);
      assert events == [x] + rest;
      RemoveSelected(rest, onA, book);
      if OneSidedIn(x, onA, book) {
        assert ([x] + mine)[1..] == mine;
      } else {
        assert Select(events, onA, book) == mine;
        RemoveSkips(x, rest, mine);
      }
    }
  }

  method TotalOf(chapters: seq<nat>) returns (total: nat)
    ensures total == BookTotal(chapters)
  {
    total := 0;
    for i := 0 to |chapters|
      invariant total + BookTotal(chapters[i..]) == BookTotal(chapters)
    {
      assert chapters[i..][1..] == chapters[i + 1..];
      total := total + chapters[i];
    }
  }

  method CoverageOf(mine: seq<Entry>) returns (covered: nat)
    ensures covered == SumOf(mine)
  {
    covered := 0;
    for i := 0 to |mine|
      invariant covered + SumOf(mine[i..]) == SumOf(mine)
    {
      assert mine[i..][1..] == mine[i + 1..];
      covered := covered + if mine[i].Grouped? then mine[i].event.n else 0;
    }
  }

  method RemoveMine(events: seq<Entry>, mine: seq<Entry>) returns (rest: seq<Entry>)
    ensures rest == RemoveEach(events, mine)
  {
    rest := events;
    for i := 0 to |mine|
      invariant RemoveEach(rest, mine[i..]) == RemoveEach(events, mine)
    {
      assert mine[i..][1..] == mine[i + 1..];
      rest := RemoveFirst(rest, mine[i]);
    }
  }

  lemma HalfIff(covered: nat, total: nat)
    requires total > 0
    ensures covered as real / total as real >= 0.5 <==> 2 * covered >= total
  {
    var share := covered as real / total as real;
    assert share * total as real == covered as real;
    if share >= 0.5 {
      assert share * total as real >= 0.5 * total as real;
    } else {
      assert share * total as real < 0.5 * total as real;
    }
  }

  method FoldSide(events: seq<Entry>, onA: bool, s: Scheme, other: Scheme) returns (folded: seq<Entry>)
    ensures folded == FoldBooks(events, onA, s, other, s.books)
  {
    folded := events;
    for i := 0 to |s.books|
      invariant folded == FoldBooks(events, onA, s, other, s.books[..i])
    {
      assert s.books[..i + 1][..i] == s.books[..i];
      var book := s.books[i];
      if book !in s.max || book in other.max {
        continue;
      }
      var total := TotalOf(s.max[book]);
      var mine := Select(folded, onA, book);
      var covered := CoverageOf(mine);
      if total > 0 {
        HalfIff(covered, total);
      }
      if total > 0 && covered as real / total as real >= 0.5 {
        RemoveSelected(folded, onA, book);
        folded := RemoveMine(folded, mine);
        folded := folded + [Whole(onA, book, s.max[book])];
      }
    }
    assert s.books[..|s.books|] == s.books;
  }

  method FoldBookOneSided(events: seq<Entry>, a: Scheme, b: Scheme) returns (folded: seq<Entry>)
    ensures folded == Fold(events, a, b)
  {
    folded := FoldSide(events, true, a, b);
    folded := FoldSide(folded, false, b, a);
  }

  // ----- what folding does -----

  /** The book has an event of its own. */
  predicate WholeIn(events: seq<Entry>, onA: bool, book: string) {
    exists e :: e in events && e.BookEntry? && e.onA == onA && SideSpan(e, onA).Span? && SideSpan(e, onA).book == book
  }

  lemma {:induction false} SelectConcat(xs: seq<Entry>, ys: seq<Entry>, onA: bool, book: string)
    ensures Select(xs + ys, onA, book) == Select(xs, onA, book) + Select(ys, onA, book)
  {
    if xs == [] {
      assert xs + ys == ys;
    } else {
      var x, rest := xs[0], xs[1..];
      SelectConcat(rest, ys, onA, book);
      assert xs + ys == [x] + (rest + ys);
      SelectCons(x, rest + ys, onA, book);
      SelectCons(x, rest, onA, book);
      assert xs == [x] + rest;
    }
  }

  lemma SelectCons(x: Entry, rest: seq<Entry>, onA: bool, book: string)
    ensures Select([x] + rest, onA, book) == (if OneSidedIn(x, onA, book) then [x] else []) + Select(rest, onA, book)
  {
    assert ([x] + rest)[1..] == rest;
  }

  /** Taking out one book's events empties that book and leaves every other one alone, on either side. */
  lemma {:induction false} SelectWithout(events: seq<Entry>, onA: bool, book: string, side: bool, other: string)
    requires side == onA || OneSpanEach(events)
    ensures Select(Without(events, onA, book), side, other)
            == if side == onA && other == book then [] else Select(events, side, other)
  {
    if events != [] {
      assert events[0] in events && forall e :: e in events[1..] ==> e in events;
      SelectWithout(events[1..], onA, book, side, other);
      var x, rest := events[0], Without(events[1..], onA, book);
      assert Select(events, side, other)
          == (if OneSidedIn(x, side, other) then [x] else []) + Select(events[1..], side, other);
      if OneSidedIn(x, onA, book) {
        assert Without(events, onA, book) == rest;
      } else {
        assert Without(events, onA, book) == [x] + rest && ([x] + rest)[1..] == rest;
      }
    }
  }

  /** No one-sided event has spans on both sides. */
  ghost predicate OneSpanEach(events: seq<Entry>) {
    forall e :: e in events && e.Grouped? && e.event.kind == OneSided ==> e.event.a == NoSpan || e.event.b == NoSpan
  }

  lemma FoldBookSelects(events: seq<Entry>, onA: bool, s: Scheme, other: Scheme, book: string, side: bool, x: string)
    requires side == onA || OneSpanEach(events)
    ensures Select(FoldBook(events, onA, s, other, book), side, x)
            == if Folds(events, onA, s, other, book) && side == onA && x == book then [] else Select(events, side, x)
    ensures OneSpanEach(events) ==> OneSpanEach(FoldBook(events, onA, s, other, book))
  {
    if Folds(events, onA, s, other, book) {
      var whole := Whole(onA, book, s.max[book]);
      SelectWithout(events, onA, book, side, x);
      SelectConcat(Without(events, onA, book), [whole], side, x);
      assert [whole][1..] == [];
    }
  }

  /** Once folded, a book is not folded again. */
  lemma {:induction false} FoldsAgain(events: seq<Entry>, onA: bool, s: Scheme, other: Scheme, books: seq<string>, x: string)
    ensures Select(FoldBooks(events, onA, s, other, books), onA, x)
            == if x in books && Folds(events, onA, s, other, x) then [] else Select(events, onA, x)
    ensures Folds(FoldBooks(events, onA, s, other, books), onA, s, other, x) <==>
            x !in books && Folds(events, onA, s, other, x)
  {
    if books != [] {
      var init, last := books[..|books| - 1], books[|books| - 1];
      var mid := FoldBooks(events, onA, s, other, init);
      FoldsAgain(events, onA, s, other, init, x);
      FoldsAgain(events, onA, s, other, init, last);
      FoldBookSelects(mid, onA, s, other, last, onA, x);
      assert x in books <==> x in init || x == last;
    }
  }

  lemma {:induction false} FoldBooksSelect(events: seq<Entry>, onA: bool, s: Scheme, other: Scheme, books: seq<string>, side: bool, x: string)
    requires side == onA || OneSpanEach(events)
    ensures Select(FoldBooks(events, onA, s, other, books), side, x)
            == if side == onA && x in books && Folds(events, onA, s, other, x) then [] else Select(events, side, x)
    ensures OneSpanEach(events) ==> OneSpanEach(FoldBooks(events, onA, s, other, books))
  {
    if books != [] {
      var init, last := books[..|books| - 1], books[|books| - 1];
      var mid := FoldBooks(events, onA, s, other, init);
      FoldBooksSelect(events, onA, s, other, init, side, x);
      FoldsAgain(events, onA, s, other, init, last);
      FoldBookSelects(mid, onA, s, other, last, side, x);
      assert x in books <==> x in init || x == last;
    }
  }

  lemma WholeAfter(events: seq<Entry>, onA: bool, s: Scheme, other: Scheme, book: string, side: bool, x: string)
    ensures WholeIn(FoldBook(events, onA, s, other, book), side, x) <==>
            WholeIn(events, side, x) || (side == onA && x == book && Folds(events, onA, s, other, book))
  {
    if Folds(events, onA, s, other, book) {
      var whole := Whole(onA, book, s.max[book]);
      var folded := Without(events, onA, book) + [whole];
      assert whole in folded;
      if e :| e in events && e.BookEntry? && e.onA == side && SideSpan(e, side).Span? && SideSpan(e, side).book == x {
        assert e in folded;
      }
    }
  }

  /** A book is folded exactly when its coverage before any folding calls for it, whatever was folded before. */
  lemma {:induction false} FoldBooksIff(events: seq<Entry>, onA: bool, s: Scheme, other: Scheme, books: seq<string>, side: bool, x: string)
    requires forall e :: e in events ==> !e.BookEntry?
    ensures WholeIn(FoldBooks(events, onA, s, other, books), side, x) <==>
            side == onA && x in books && Folds(events, onA, s, other, x)
  {
    if books != [] {
      var init, last := books[..|books| - 1], books[|books| - 1];
      FoldBooksIff(events, onA, s, other, init, side, x);
      FoldsAgain(events, onA, s, other, init, last);
      WholeAfter(FoldBooks(events, onA, s, other, init), onA, s, other, last, side, x);
      assert x in books <==> x in init || x == last;
    }
  }

  lemma {:induction false} SecondSide(events: seq<Entry>, onA: bool, s: Scheme, other: Scheme, books: seq<string>, side: bool, x: string)
    ensures WholeIn(FoldBooks(events, onA, s, other, books), side, x) <==>
            WholeIn(events, side, x) || (side == onA && x in books && Folds(events, onA, s, other, x))
  {
    if books != [] {
      var init, last := books[..|books| - 1], books[|books| - 1];
      var mid := FoldBooks(events, onA, s, other, init);
      SecondSide(events, onA, s, other, init, side, x);
      FoldsAgain(events, onA, s, other, init, last);
      WholeAfter(mid, onA, s, other, last, side, x);
      assert FoldBooks(events, onA, s, other, books) == FoldBook(mid, onA, s, other, last);
      assert x in books <==> x in init || x == last;
    }
  }

  /**
   * A book gets an event of its own exactly when the other scheme lacks it and at least half of its
   * verses were in one-sided events; folding one side does not disturb the other.
   */
  lemma FoldsIff(events: seq<Entry>, a: Scheme, b: Scheme, onA: bool, book: string)
    requires OneSpanEach(events) && forall e :: e in events ==> !e.BookEntry?
    ensures WholeIn(Fold(events, a, b), onA, book) <==>
            if onA then book in a.books && Folds(events, true, a, b, book)
            else book in b.books && Folds(events, false, b, a, book)
  {
    var mid := FoldBooks(events, true, a, b, a.books);
    FoldBooksIff(events, true, a, b, a.books, onA, book);
    FoldBooksSelect(events, true, a, b, a.books, false, book);
    SecondSide(mid, false, b, a, b.books, onA, book);
  }

  /** Schemes of the same books fold nothing. */
  lemma {:induction false} SharedBooksStay(events: seq<Entry>, onA: bool, s: Scheme, books: seq<string>)
    ensures FoldBooks(events, onA, s, s, books) == events
  {
    if books != [] {
      SharedBooksStay(events, onA, s, books[..|books| - 1]);
    }
  }
}
