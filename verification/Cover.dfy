/** One hop: the narrowest covering row and the projection of a verse through it. */
module Cover {
  import opened Options
  import opened Coordinates
  import opened RelationAlgebra

  /** A mapping row with parsed ranges; `base` is missing for exclusions and base-less merges. */
  datatype Row = Row(source: RefRange, base: Option<RefRange>, part: Option<string>, relation: Relation, ordinal: nat)

  /** Rows as derivation emits them: exclusions have no base, and only merges may otherwise lack one. */
  predicate Derived(row: Row) {
    if row.relation == Exclude then row.base == None else row.base == None ==> row.relation == Merge
  }

  /** The range a lookup is made against: the source side climbing, the base side descending. */
  function CoverSide(row: Row, upward: bool): Option<RefRange> {
    if upward then Some(row.source) else row.base
  }

  /** Whole verses skip part rows; part queries need the same part. */
  predicate Applies(row: Row, v: VerseId, upward: bool) {
    && (row.relation == Partial ==> v.part.Some? && row.part == v.part)
    && CoverSide(row, upward).Some?
    && Covers(CoverSide(row, upward).value, v)
  }

  function Width(row: Row, upward: bool): nat {
    if CoverSide(row, upward).Some? then CoverSide(row, upward).value.more else 0
  }

  predicate Narrower(row: Row, other: Row, upward: bool) {
    || Width(row, upward) < Width(other, upward)
    || (Width(row, upward) == Width(other, upward) && row.ordinal < other.ordinal)
  }

  /** The first narrowest covering row, ties on width going to the lower ordinal. */
  function Covering(rows: seq<Row>, v: VerseId, upward: bool): Option<Row> {
    if rows == [] then None
    else
      var best, last := Covering(rows[..|rows| - 1], v, upward), rows[|rows| - 1];
      if Applies(last, v, upward) && (best.None? || Narrower(last, best.value, upward)) then Some(last) else best
  }

  /** A covering row is found exactly when one applies, and nothing applicable is narrower. */
  lemma {:induction false} CoveringIsNarrowest(rows: seq<Row>, v: VerseId, upward: bool)
    ensures var c := Covering(rows, v, upward);
            && (c.None? <==> forall row :: row in rows ==> !Applies(row, v, upward))
            && (c.Some? ==> c.value in rows && Applies(c.value, v, upward)
                            && forall row :: row in rows && Applies(row, v, upward) ==> !Narrower(row, c.value, upward))
  {
    if rows != [] {
      var init := rows[..|rows| - 1];
      CoveringIsNarrowest(init, v, upward);
      assert rows == init + [rows[|rows| - 1]];
    }
  }

  function Candidates(rows: seq<Row>, v: VerseId, upward: bool): seq<Row> {
    if rows == [] then []
    else
      var last := rows[|rows| - 1];
      Candidates(rows[..|rows| - 1], v, upward) + (if Applies(last, v, upward) then [last] else [])
  }

  /** Insert before the first row that is not narrower. */
  function InsertRow(row: Row, rows: seq<Row>, upward: bool): seq<Row> {
    if rows == [] || !Narrower(rows[0], row, upward) then [row] + rows
    else [rows[0]] + InsertRow(row, rows[1..], upward)
  }

  /** The stable sort by width, then ordinal. */
  function SortRows(rows: seq<Row>, upward: bool): seq<Row> {
    if rows == [] then [] else InsertRow(rows[0], SortRows(rows[1..], upward), upward)
  }

  /** The head of the sorted candidates is the first narrowest row. */
  lemma {:induction false} FirstOfSorted(rows: seq<Row>, v: VerseId, upward: bool)
    ensures var sorted := SortRows(Candidates(rows, v, upward), upward);
            Covering(rows, v, upward) == if sorted == [] then None else Some(sorted[0])
  {
    if rows != [] {
      var before, last := Candidates(rows[..|rows| - 1], v, upward), rows[|rows| - 1];
      FirstOfSorted(rows[..|rows| - 1], v, upward);
      SortSnoc(before, last, upward);
      assert Candidates(rows, v, upward) == if Applies(last, v, upward) then before + [last] else before;
    }
  }

  /** Appending a row changes the head only when it is strictly narrower. */
  lemma {:induction false} SortSnoc(rows: seq<Row>, row: Row, upward: bool)
    ensures var s, t := SortRows(rows, upward), SortRows(rows + [row], upward);
            t != [] && t[0] == if s == [] || Narrower(row, s[0], upward) then row else s[0]
  {
    if rows != [] {
      SortSnoc(rows[1..], row, upward);
      assert (rows + [row])[1..] == rows[1..] + [row];
    }
  }

  method FindCoveringRecord(rows: seq<Row>, v: VerseId, upward: bool) returns (found: Option<Row>)
    ensures found == Covering(rows, v, upward)
  {
    var candidates: seq<Row> := [];
    for i := 0 to |rows|
      invariant candidates == Candidates(rows[..i], v, upward)
    {
      assert rows[..i + 1][..i] == rows[..i];
      if rows[i].relation == Partial && (v.part == None || rows[i].part != v.part) {
        continue;
      }
      var cover := CoverSide(rows[i], upward);
      if cover == None {
        continue;
      }
      if !Covers(cover.value, v) {
        continue;
      }
      candidates := candidates + [rows[i]];
    }
    assert rows[..|rows|] == rows;
    FirstOfSorted(rows, v, upward);
    var sorted := SortRows(candidates, upward);
    found := if sorted == [] then None else Some(sorted[0]);
  }

  // ----- projection -----

  /** Output verses, the relation the hop contributes, and the siblings a merge gathers. */
  datatype Projection = Projection(verses: seq<VerseId>, relation: Relation, excluded: bool, siblings: seq<VerseId>)

  function ExpandPart(r: RefRange, part: Option<string>): seq<VerseId> {
    seq(r.Length(), i requires 0 <= i => VerseId(r.book, r.chapter, r.first + i, part))
  }

  /** Pair by index; an index past the end of the base range is clamped to its last verse. */
  function ZipProject(v: VerseId, source: RefRange, base: RefRange, relation: Relation, part: Option<string>): Projection
    requires Covers(source, v)
  {
    var i := IndexInRange(source, v);
    var clamped := if i < base.Length() then i else base.Length() - 1;
    Projection([VerseId(base.book, base.chapter, base.first + clamped, part)], relation, false, [])
  }

  /** Python's `a or b` on optional text. */
  function OrPart(a: Option<string>, b: Option<string>): Option<string> {
    if a.Some? && a.value != "" then a else b
  }

  function ProjectOnto(v: VerseId, row: Row, upward: bool, relation: Relation, source: RefRange, base: RefRange): Projection
    requires Covers(source, v)
  {
    match relation
    case Merge =>
      Projection([VerseId(base.book, base.chapter, base.first, v.part)], Merge, false, ExpandPart(source, v.part))
    case Split => Projection(ExpandPart(base, v.part), Split, false, [])
    case Partial => ZipProject(v, source, base, Partial, if upward then row.part else OrPart(v.part, row.part))
    case _ => ZipProject(v, source, base, relation, v.part)
  }

  function Excluded(): Projection {
    Projection([], Exclude, true, [])
  }

  /** Project a covered verse through a row; descending swaps the sides and inverts the relation. */
  function ProjectThrough(v: VerseId, row: Row, upward: bool): Projection
    requires CoverSide(row, upward).Some? && Covers(CoverSide(row, upward).value, v)
  {
    var relation := if upward then row.relation else Invert(row.relation);
    var source := CoverSide(row, upward).value;
    var base := if upward then row.base else Some(row.source);
    if relation == Exclude then Excluded()
    else if base == None then
      if relation != Merge then Excluded()
      else ProjectOnto(v, row, upward, Merge, source, RefRange(source.book, source.chapter, source.first, 0))
    else ProjectOnto(v, row, upward, relation, source, base.value)
  }

  /** The whole hop for one verse; a verse no row covers stays where it is. */
  function ProjectVerse(v: VerseId, rows: seq<Row>, upward: bool): Projection {
    var row := Covering(rows, v, upward);
    CoveringIsNarrowest(rows, v, upward);
    if row.None? then Projection([v], OneToOne, false, []) else ProjectThrough(v, row.value, upward)
  }

  // ----- laws of one hop -----

  /** A hop yields verses unless it excludes, keeps the part, and gathers the verse itself into its siblings. */
  lemma ProjectionShape(v: VerseId, rows: seq<Row>, upward: bool)
    ensures var p := ProjectVerse(v, rows, upward);
            && (p.excluded <==> p.relation == Exclude)
            && (p.excluded <==> p.verses == [])
            && (forall w: VerseId :: w in p.verses || w in p.siblings ==> w.part == v.part)
            && (p.siblings != [] <==> p.relation == Merge)
            && (p.siblings != [] ==> v in p.siblings && |p.verses| == 1)
  {
    CoveringIsNarrowest(rows, v, upward);
    var row := Covering(rows, v, upward);
    if row.Some? && upward ==> row.value.base.Some? {
      var p := ProjectVerse(v, rows, upward);
      if p.relation == Merge && row.Some? {
        var source := CoverSide(row.value, upward).value;
        assert p.siblings[IndexInRange(source, v)] == v;
      }
    } else {
      var source := row.value.source;
      var p := ProjectVerse(v, rows, upward);
      if p.relation == Merge {
        assert p.siblings[IndexInRange(source, v)] == v;
      }
    }
  }

  /** Descending through derived rows never excludes: an exclusion has no base side to be covered by. */
  lemma DescentNeverExcludes(v: VerseId, rows: seq<Row>)
    requires forall row :: row in rows ==> Derived(row)
    ensures !ProjectVerse(v, rows, false).excluded
  {
    CoveringIsNarrowest(rows, v, false);
    var row := Covering(rows, v, false);
    if row.Some? {
      assert Derived(row.value);
    }
  }

  /** Climbing excludes exactly when the narrowest covering row is an exclusion. */
  lemma ClimbExcludesIff(v: VerseId, rows: seq<Row>)
    requires forall row :: row in rows ==> Derived(row)
    ensures ProjectVerse(v, rows, true).excluded <==>
            Covering(rows, v, true).Some? && Covering(rows, v, true).value.relation == Exclude
  {
    CoveringIsNarrowest(rows, v, true);
    var row := Covering(rows, v, true);
    if row.Some? {
      assert Derived(row.value);
    }
  }
}
