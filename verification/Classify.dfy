/** Relations between two schemes: alternate forms, classification and order inversions. */
module Classification {
  import opened Refs
  import opened Sorting
  import opened Options
  import opened Schemes
  import Lis

  datatype Kind =
    | CrossBook | ChapterMove | Verse0Title | Renumber | Segment | Merge | Split
    | Excluded | OneSided | OrderInversion

  /** Side of a cardinality such as `1:n`. */
  datatype Count = Zero | One | Many

  /** One connected component, or a same-book piece of one. */
  datatype Relation = Relation(
    a: seq<Verse>, o: seq<Verse>, b: seq<Verse>,
    flags: set<Flag>, warn: bool, codesA: set<string>, codesB: set<string>,
    ap: seq<Verse>, bp: seq<Verse>,       // verses not excluded, set by classification
    card: (Count, Count), kind: Option<Kind>,
    etype: Option<Kind>                   // type of the event the relation was drawn in
  )

  function CountOf(n: nat): Count {
    if n == 0 then Zero else if n == 1 then One else Many
  }

  function Present(vs: seq<Verse>, excluded: set<Verse>): (r: seq<Verse>)
    ensures forall v :: v in r <==> v in vs && v !in excluded
  {
    if vs == [] then []
    else (if vs[0] in excluded then [] else [vs[0]]) + Present(vs[1..], excluded)
  }

  function BookSet(vs: seq<Verse>): set<string> {
    set v | v in vs :: v.book
  }

  function ChapterSet(vs: seq<Verse>): set<(string, nat)> {
    set v | v in vs :: (v.book, v.chapter)
  }

  // ----- alternate book forms -----

  function OfBook(vs: seq<Verse>, book: string): (r: seq<Verse>)
    ensures forall v :: v in r <==> v in vs && v.book == book
  {
    if vs == [] then []
    else (if vs[0].book == book then [vs[0]] else []) + OfBook(vs[1..], book)
  }

  function OutsideBooks(vs: seq<Verse>, books: set<string>): (r: seq<Verse>)
    ensures forall v :: v in r <==> v in vs && v.book !in books
  {
    if vs == [] then []
    else (if vs[0].book in books then [] else [vs[0]]) + OutsideBooks(vs[1..], books)
  }

  /** The distinct books of a verse list, in the order they first appear. */
  function BookList(vs: seq<Verse>): (r: seq<string>)
    ensures forall b :: b in r <==> b in BookSet(vs)
    ensures forall i, j :: 0 <= i < j < |r| ==> r[i] != r[j]
  {
    if vs == [] then []
    else
      var init, last := BookList(vs[..|vs| - 1]), vs[|vs| - 1];
      assert forall v :: v in vs <==> v in vs[..|vs| - 1] || v == last;
      if last.book in init then init else init + [last.book]
  }

  function Sorted(ord: BookOrder, books: seq<string>): seq<string> {
    StableSort(books, book => Pos(ord(book), 0, 0))
  }

  function Piece(r: Relation, a: seq<Verse>, b: seq<Verse>, warn: bool): Relation {
    r.(a := a, b := b, warn := warn)
  }

  function PiecesByBookA(r: Relation, books: seq<string>): seq<Relation> {
    seq(|books|, i requires 0 <= i < |books| => Piece(r, OfBook(r.a, books[i]), r.b, false))
  }

  function PiecesByBookB(r: Relation, books: seq<string>): seq<Relation> {
    seq(|books|, i requires 0 <= i < |books| => Piece(r, r.a, OfBook(r.b, books[i]), false))
  }

  function PiecesByCommonBook(r: Relation, books: seq<string>): seq<Relation> {
    seq(|books|, i requires 0 <= i < |books| =>
      Piece(r, OfBook(r.a, books[i]), OfBook(r.b, books[i]), false))
  }

  function KeepBooks(books: seq<string>, keep: set<string>): (r: seq<string>)
    ensures forall b :: b in r <==> b in books && b in keep
  {
    if books == [] then []
    else (if books[0] in keep then [books[0]] else []) + KeepBooks(books[1..], keep)
  }

  /** The leftovers of both sides, when there are some on both. */
  function Leftovers(r: Relation, common: set<string>): seq<Relation> {
    var leftA, leftB := OutsideBooks(r.a, common), OutsideBooks(r.b, common);
    if leftA != [] && leftB != [] then [Piece(r, leftA, leftB, r.warn)] else []
  }

  /** Same-book verses pair first; leftovers on one side are alternates of text that already matched. */
  function SplitAlternates(ord: BookOrder, r: Relation): seq<Relation> {
    var booksA, booksB := BookList(r.a), BookList(r.b);
    var common := BookSet(r.a) * BookSet(r.b);
    if booksA == [] || booksB == [] || (|booksA| == 1 && |booksB| == 1) then [r]
    else if common == {} then
      if |booksA| > 1 then PiecesByBookA(r, Sorted(ord, booksA))
      else PiecesByBookB(r, Sorted(ord, booksB))
    else PiecesByCommonBook(r, Sorted(ord, KeepBooks(booksA, common))) + Leftovers(r, common)
  }

  lemma SplitAlone(ord: BookOrder, r: Relation)
    requires BookList(r.a) == [] || BookList(r.b) == [] || (|BookList(r.a)| == 1 && |BookList(r.b)| == 1)
    ensures SplitAlternates(ord, r) == [r]
  {
  }

  lemma SplitApart(ord: BookOrder, r: Relation)
    requires BookList(r.a) != [] && BookList(r.b) != [] && (|BookList(r.a)| > 1 || |BookList(r.b)| > 1)
    requires BookSet(r.a) * BookSet(r.b) == {}
    ensures SplitAlternates(ord, r) == if |BookList(r.a)| > 1 then PiecesByBookA(r, Sorted(ord, BookList(r.a)))
                                       else PiecesByBookB(r, Sorted(ord, BookList(r.b)))
  {
  }

  lemma SplitCommon(ord: BookOrder, r: Relation, c: set<string>)
    requires c == BookSet(r.a) * BookSet(r.b) != {} && (|BookList(r.a)| > 1 || |BookList(r.b)| > 1)
    ensures SplitAlternates(ord, r)
            == PiecesByCommonBook(r, Sorted(ord, KeepBooks(BookList(r.a), c))) + Leftovers(r, c)
  {
    var book :| book in c;
    assert book in BookList(r.a) && book in BookList(r.b);
  }

  /** A piece lists some of the component's verses; beyond its warning nothing else is its own. */
  ghost predicate PieceOf(r: Relation, p: Relation) {
    && p == Piece(r, p.a, p.b, p.warn)
    && (forall v :: v in p.a ==> v in r.a) && (forall v :: v in p.b ==> v in r.b)
  }

  lemma BookPieces(r: Relation, books: seq<string>)
    ensures forall p :: p in PiecesByBookA(r, books) ==> PieceOf(r, p)
    ensures forall p :: p in PiecesByBookB(r, books) ==> PieceOf(r, p)
    ensures forall p :: p in PiecesByCommonBook(r, books) ==> PieceOf(r, p)
  {
  }

  lemma LeftoverPieces(r: Relation, common: set<string>)
    ensures forall p :: p in Leftovers(r, common) ==> PieceOf(r, p)
  {
  }

  lemma SplitPieces(ord: BookOrder, r: Relation, p: Relation)
    requires p in SplitAlternates(ord, r)
    ensures PieceOf(r, p)
  {
    var booksA, booksB, c := BookList(r.a), BookList(r.b), BookSet(r.a) * BookSet(r.b);
    if booksA == [] || booksB == [] || (|booksA| == 1 && |booksB| == 1) {
      SplitAlone(ord, r);
    } else if c == {} {
      SplitApart(ord, r);
      BookPieces(r, Sorted(ord, booksA));
      BookPieces(r, Sorted(ord, booksB));
    } else {
      SplitCommon(ord, r, c);
      BookPieces(r, Sorted(ord, KeepBooks(booksA, c)));
      LeftoverPieces(r, c);
    }
  }

  // ----- first pass -----

  /** The type of a relation that has present verses on both sides. */
  function BothSidesKind(ap: seq<Verse>, bp: seq<Verse>, flags: set<Flag>): Option<Kind> {
    if |BookSet(ap) + BookSet(bp)| > 1 then Some(CrossBook)
    else if ChapterSet(ap) != ChapterSet(bp) then Some(ChapterMove)
    else if |ap| == 1 && |bp| == 1 then
      if ap[0] == bp[0] then None
      else if ap[0].verse == 0 || bp[0].verse == 0 then Some(Verse0Title)
      else Some(Renumber)
    else if ap == bp then None
    else if SegmentFlag in flags then Some(Segment)
    else if |ap| > |bp| then Some(Merge)
    else if |ap| < |bp| then Some(Split)
    else Some(Renumber)
  }

  /** A relation with its present verses and their counts filled in. */
  function Counted(r: Relation, ap: seq<Verse>, bp: seq<Verse>): Relation {
    r.(ap := ap, bp := bp, card := (CountOf(|ap|), CountOf(|bp|)))
  }

  /** Exactly one side has present verses. */
  function LoneTyped(r: Relation): Relation {
    var listed := if r.ap == [] then r.a != [] else r.b != [];
    var kinded := r.(kind := Some(if listed then Excluded else OneSided));
    if NoAnchorFlag !in r.flags then kinded
    else if r.a != [] then kinded.(warn := true, codesA := r.codesA + {"no_org_anchor"})
    else kinded.(warn := true, codesB := r.codesB + {"no_org_anchor"})
  }

  /** Both sides have present verses; without multi-target data on both, a count mismatch is approximate. */
  function PairTyped(r: Relation, kind: Option<Kind>, bothVrs: bool): Relation {
    var approx := kind in {Some(Merge), Some(Split), Some(Segment)} && !bothVrs;
    r.(kind := kind, flags := if approx then r.flags + {ApproxFlag} else r.flags)
  }

  function Typed(r: Relation, bothVrs: bool): Relation {
    if r.ap == [] && r.bp == [] then r.(kind := None)
    else if r.ap == [] || r.bp == [] then LoneTyped(r)
    else PairTyped(r, BothSidesKind(r.ap, r.bp, r.flags), bothVrs)
  }

  function FirstPass(r: Relation, sideA: Scheme, sideB: Scheme): Relation {
    Typed(Counted(r, Present(r.a, sideA.excluded), Present(r.b, sideB.excluded)), sideA.hasVrs && sideB.hasVrs)
  }

  function FirstPassAll(rs: seq<Relation>, sideA: Scheme, sideB: Scheme): seq<Relation> {
    seq(|rs|, i requires 0 <= i < |rs| => FirstPass(rs[i], sideA, sideB))
  }

  /** Classification fills in the present verses and moves nothing. */
  ghost predicate Keeps(r: Relation, p: Relation, sideA: Scheme, sideB: Scheme) {
    && p.a == r.a && p.o == r.o && p.b == r.b && p.etype == r.etype
    && p.ap == Present(r.a, sideA.excluded) && p.bp == Present(r.b, sideB.excluded)
  }

  lemma TypedKeeps(r: Relation, bothVrs: bool)
    ensures var p := Typed(r, bothVrs);
            p.a == r.a && p.o == r.o && p.b == r.b && p.etype == r.etype && p.ap == r.ap && p.bp == r.bp
  {
  }

  lemma FirstPassKeeps(r: Relation, sideA: Scheme, sideB: Scheme)
    ensures Keeps(r, FirstPass(r, sideA, sideB), sideA, sideB)
  {
    TypedKeeps(Counted(r, Present(r.a, sideA.excluded), Present(r.b, sideB.excluded)), sideA.hasVrs && sideB.hasVrs);
  }

  lemma KindNeverInverts(ap: seq<Verse>, bp: seq<Verse>, flags: set<Flag>)
    ensures BothSidesKind(ap, bp, flags) !in {Some(OrderInversion), Some(Excluded), Some(OneSided)}
  {
  }

  /** Exactly the relations with one empty side get a one-sided kind. */
  lemma TypedKind(r: Relation, bothVrs: bool)
    ensures var t := Typed(r, bothVrs);
            && t.kind != Some(OrderInversion) && t.ap == r.ap && t.bp == r.bp
            && (t.kind in {Some(Excluded), Some(OneSided)} <==> (r.ap == [] <==> r.bp != []))
  {
    if r.ap != [] && r.bp != [] {
      KindNeverInverts(r.ap, r.bp, r.flags);
      var kind := BothSidesKind(r.ap, r.bp, r.flags);
      assert Typed(r, bothVrs) == PairTyped(r, kind, bothVrs);
      assert PairTyped(r, kind, bothVrs).kind == kind;
    }
  }

  lemma FirstPassNeverInverts(r: Relation, sideA: Scheme, sideB: Scheme)
    ensures FirstPass(r, sideA, sideB).kind != Some(OrderInversion)
  {
    TypedKind(Counted(r, Present(r.a, sideA.excluded), Present(r.b, sideB.excluded)), sideA.hasVrs && sideB.hasVrs);
  }

  // ----- order inversions -----

  predicate TwoSided(r: Relation) {
    r.ap != [] && r.bp != []
  }

  /** A two-sided relation whose A side starts in this book. */
  predicate OfBookA(r: Relation, book: string) {
    TwoSided(r) && r.ap[0].book == book
  }

  /** Indices of the two-sided relations whose A side starts in `book`, in list order. */
  function BookIndices(rs: seq<Relation>, book: string): (g: seq<nat>)
    ensures forall k :: 0 <= k < |g| ==> g[k] < |rs| && OfBookA(rs[g[k]], book)
    ensures forall i :: 0 <= i < |rs| && OfBookA(rs[i], book) ==> i in g
    ensures forall j, k :: 0 <= j < k < |g| ==> g[j] < g[k]
  {
    if rs == [] then []
    else
      var last := |rs| - 1;
      var init := BookIndices(rs[..last], book);
      if OfBookA(rs[last], book) then init + [last] else init
  }

  function KeyA(ord: BookOrder, rs: seq<Relation>): nat -> Pos {
    (i: nat) => if i < |rs| && rs[i].ap != [] then VersePos(ord, rs[i].ap[0]) else Pos(0, 0, 0)
  }

  function KeyB(ord: BookOrder, rs: seq<Relation>, i: nat): Pos {
    if i < |rs| && rs[i].bp != [] then VersePos(ord, rs[i].bp[0]) else Pos(0, 0, 0)
  }

  /** A book's relations in the order of their A side. */
  function BookGroup(ord: BookOrder, rs: seq<Relation>, book: string): seq<nat> {
    StableSort(BookIndices(rs, book), KeyA(ord, rs))
  }

  function KeysB(ord: BookOrder, rs: seq<Relation>, g: seq<nat>): seq<Pos> {
    seq(|g|, k requires 0 <= k < |g| => KeyB(ord, rs, g[k]))
  }

  function Mark(rs: seq<Relation>, marked: set<nat>): seq<Relation> {
    seq(|rs|, i requires 0 <= i < |rs| =>
      if i in marked then rs[i].(kind := Some(OrderInversion)) else rs[i])
  }

  /** `keep` is a longest backbone of the group's B side, and exactly the relations off it are marked. */
  ghost predicate MarkedOff(ord: BookOrder, rs: seq<Relation>, g: seq<nat>, marked: set<nat>, keep: set<nat>) {
    && Lis.LongestBackbone(PosLe, KeysB(ord, rs, g), keep)
    && forall k :: 0 <= k < |g| ==> (g[k] in marked <==> k !in keep)
  }

  /** In this book exactly the relations off one longest backbone are marked. */
  ghost predicate BookMarked(ord: BookOrder, rs: seq<Relation>, book: string, marked: set<nat>) {
    exists keep: set<nat> :: MarkedOff(ord, rs, BookGroup(ord, rs, book), marked, keep)
  }

  ghost predicate Marking(ord: BookOrder, first: seq<Relation>, marked: set<nat>) {
    && (forall i :: i in marked ==> i < |first| && TwoSided(first[i]))
    && (forall book :: BookMarked(ord, first, book, marked))
  }

  /** `out` is the classification of `rs`: the first pass, then the inversions of each A-side book. */
  ghost predicate Classified(ord: BookOrder, rs: seq<Relation>, sideA: Scheme, sideB: Scheme, out: seq<Relation>) {
    exists marked: set<nat> ::
      && Marking(ord, FirstPassAll(rs, sideA, sideB), marked)
      && out == Mark(FirstPassAll(rs, sideA, sideB), marked)
  }

  lemma ClassifiedKeeps(ord: BookOrder, rs: seq<Relation>, sideA: Scheme, sideB: Scheme, out: seq<Relation>)
    requires Classified(ord, rs, sideA, sideB, out)
    ensures |out| == |rs| && forall i :: 0 <= i < |rs| ==> Keeps(rs[i], out[i], sideA, sideB)
  {
    var first := FirstPassAll(rs, sideA, sideB);
    var marked: set<nat> :| Marking(ord, first, marked) && out == Mark(first, marked);
    forall i | 0 <= i < |rs| ensures Keeps(rs[i], out[i], sideA, sideB) {
      FirstPassKeeps(rs[i], sideA, sideB);
    }
  }
}
