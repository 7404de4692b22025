/** Verse coordinates and same-chapter ranges of the resolver. */
module Coordinates {
  import opened Options

  /** `part` names a sub-verse; verse 0 is a psalm title. */
  datatype VerseId = VerseId(book: string, chapter: nat, verse: nat, part: Option<string>)

  /** Verses `first` to `first + more` of one chapter, so an end before the start cannot be written down. */
  datatype RefRange = RefRange(book: string, chapter: nat, first: nat, more: nat) {
    function Last(): nat {
      first + more
    }

    function Length(): nat {
      more + 1
    }
  }

  function Whole(r: RefRange, verse: nat): VerseId {
    VerseId(r.book, r.chapter, verse, None)
  }

  function Expand(r: RefRange): seq<VerseId> {
    seq(r.Length(), i requires 0 <= i => Whole(r, r.first + i))
  }

  lemma ExpandMembers(r: RefRange, v: VerseId)
    ensures v in Expand(r) <==> v.part == None && Covers(r, v)
  {
    if v.part == None && Covers(r, v) {
      var i := IndexInRange(r, v);
      assert Expand(r)[i] == Whole(r, r.first + i);
      assert v == Whole(r, v.verse);
    }
    if v in Expand(r) {
      var i :| 0 <= i < |Expand(r)| && Expand(r)[i] == v;
      assert v == Whole(r, r.first + i);
    }
  }

  predicate Covers(r: RefRange, v: VerseId) {
    r.book == v.book && r.chapter == v.chapter && r.first <= v.verse <= r.Last()
  }

  /** Position of a covered verse in its range. */
  function IndexInRange(r: RefRange, v: VerseId): (i: nat)
    requires Covers(r, v)
    ensures i < r.Length() && r.first + i == v.verse
  {
    v.verse - r.first
  }
}
