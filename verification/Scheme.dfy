/** One versification as the divergence engine sees it: maxima, exclusions and edges to the root numbering. */
module Schemes {
  import opened Refs
  import opened Sorting

  datatype Flag = SegmentFlag | VrsFlag | ApproxFlag | WarnFlag | NoAnchorFlag

  /** One root verse a source verse maps to. */
  datatype Edge = Edge(org: Verse, flags: set<Flag>)

  /** Verses `first` to `last` of one chapter, printed as one. */
  datatype Bridge = Bridge(book: string, chapter: nat, first: nat, last: nat)

  /**
   * `books` lists the keys of `max` in document order. `edges` keeps the targets of a verse in
   * insertion order; a listed verse always has at least one target.
   */
  datatype Scheme = Scheme(
    books: seq<string>,
    max: map<string, seq<nat>>,
    excluded: set<Verse>,
    edges: map<Verse, seq<Edge>>,
    codes: map<Verse, set<string>>,
    hasVrs: bool,
    bridges: seq<Bridge>,
    segments: map<Verse, seq<string>>   // part names of a verse, sorted
  )

  /** Whether the maxima list this verse; verse 0 never is. */
  predicate Exists(s: Scheme, v: Verse) {
    && v.book in s.max
    && 1 <= v.chapter <= |s.max[v.book]|
    && 1 <= v.verse <= s.max[v.book][v.chapter - 1]
  }

  function CodesOf(s: Scheme, v: Verse): set<string> {
    if v in s.codes then s.codes[v] else {}
  }

  function PartsOf(s: Scheme, v: Verse): seq<string> {
    if v in s.segments then s.segments[v] else []
  }

  function ChapterVerses(book: string, chapter: nat, count: nat): seq<Verse> {
    seq(count, i requires 0 <= i => Verse(book, chapter, i + 1))
  }

  /** The verses of the first `n` chapters of a book, with a verse 0 only where a mapping names it. */
  function BookVerses(s: Scheme, book: string, n: nat): seq<Verse>
    requires book in s.max && n <= |s.max[book]|
  {
    if n == 0 then []
    else
      BookVerses(s, book, n - 1)
      + (if Verse(book, n, 0) in s.edges then [Verse(book, n, 0)] else [])
      + ChapterVerses(book, n, s.max[book][n - 1])
  }

  function VersesOfBooks(s: Scheme, books: seq<string>): seq<Verse> {
    if books == [] then []
    else
      var book := books[|books| - 1];
      VersesOfBooks(s, books[..|books| - 1])
      + (if book in s.max then BookVerses(s, book, |s.max[book]|) else [])
  }

  /** The verse universe in catalog order. */
  function Verses(ord: BookOrder, s: Scheme): seq<Verse> {
    VersesOfBooks(s, StableSort(s.books, book => Pos(ord(book), 0, 0)))
  }

  /** Root targets of one verse; the flag is true when the edge is the default identity. */
  function ToOrg(s: Scheme, v: Verse): (seq<Edge>, bool) {
    if v in s.edges && s.edges[v] != [] then (s.edges[v], false) else ([Edge(v, {})], true)
  }
}
