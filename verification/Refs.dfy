/** Verses, the canonical sort key and the span encoding of the divergence engine. */
module Refs {

  datatype Verse = Verse(book: string, chapter: nat, verse: nat)

  /** Sort key: book order, then chapter, then verse. */
  datatype Pos = Pos(book: int, chapter: int, verse: int)

  /** Rank of a book code. The theory below holds for every ranking; module Catalog has the shipped one. */
  type BookOrder = string -> int

  predicate PosLe(a: Pos, b: Pos) {
    || a.book < b.book
    || (a.book == b.book && (a.chapter < b.chapter || (a.chapter == b.chapter && a.verse <= b.verse)))
  }

  function VersePos(ord: BookOrder, v: Verse): Pos {
    Pos(ord(v.book), v.chapter, v.verse)
  }

  /** `[book, chapter1, verse1, chapter2, verse2]`, or nothing for an empty list. */
  datatype Span =
    | NoSpan
    | Span(book: string, chapter1: nat, verse1: nat, chapter2: nat, verse2: nat)

  /** Encode a verse list by its end points; a list that changes book keeps only its first verse. */
  function SpanOf(verses: seq<Verse>): Span {
    if verses == [] then NoSpan
    else
      var first, last := verses[0], verses[|verses| - 1];
      if first.book != last.book then Span(first.book, first.chapter, first.verse, first.chapter, first.verse)
      else Span(first.book, first.chapter, first.verse, last.chapter, last.verse)
  }

  /** How a reader expands a span that stays in one chapter. */
  function DecodeSpan(s: Span): seq<Verse> {
    if s.NoSpan? || s.chapter1 != s.chapter2 || s.verse2 < s.verse1 then []
    else seq(s.verse2 - s.verse1 + 1, i requires 0 <= i => Verse(s.book, s.chapter1, s.verse1 + i))
  }

  /** Consecutive verses of one chapter. */
  ghost predicate Consecutive(vs: seq<Verse>) {
    forall k :: 0 < k < |vs| ==>
      vs[k] == Verse(vs[k - 1].book, vs[k - 1].chapter, vs[k - 1].verse + 1)
  }

  lemma {:induction false} ConsecutiveAt(vs: seq<Verse>, k: nat)
    requires Consecutive(vs) && k < |vs|
    ensures vs[k] == Verse(vs[0].book, vs[0].chapter, vs[0].verse + k)
  {
    if k > 0 {
      ConsecutiveAt(vs, k - 1);
    }
  }

  /** The span of a run of consecutive verses decodes to exactly those verses. */
  lemma SpanRoundTrip(vs: seq<Verse>)
    requires vs != [] && Consecutive(vs)
    ensures SpanOf(vs).Span? && SpanOf(vs).chapter1 == SpanOf(vs).chapter2
    ensures DecodeSpan(SpanOf(vs)) == vs
  {
    forall k: nat | k < |vs| ensures vs[k] == Verse(vs[0].book, vs[0].chapter, vs[0].verse + k) {
      ConsecutiveAt(vs, k);
    }
  }
}
