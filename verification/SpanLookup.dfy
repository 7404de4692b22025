/** Finding a stored verse span: scanning the rows, and the preloaded tables that must answer alike. */
module SpanLookup {
  import opened Options
  import opened Coordinates
  import References

  /** One stored span of a translation; a combined milestone also carries the range it covers. */
  datatype SpanRow = SpanRow(book: string, chapter: nat, verse: nat, part: Option<string>, order: nat, range: Option<string>)

  datatype Query = Query(book: string, chapter: nat, verse: nat, part: Option<string>)

  function KeyOf(row: SpanRow): Query {
    Query(row.book, row.chapter, row.verse, row.part)
  }

  function WholeOf(q: Query): Query {
    q.(part := None)
  }

  /** The row's milestone range covers the verse; an unparseable range covers nothing. */
  predicate RangeCovers(row: SpanRow, q: Query) {
    row.range.Some? && References.ParseRef(row.range.value).Some?
    && Covers(References.ParseRef(row.range.value).value, VerseId(q.book, q.chapter, q.verse, None))
  }

  predicate Milestone(row: SpanRow, q: Query) {
    row.book == q.book && row.chapter == q.chapter && row.range.Some?
  }

  // ----- scanning -----

  /** What a query for exact coordinates may answer: some row that has them, or nothing when none has. */
  predicate ExactAnswer(rows: seq<SpanRow>, q: Query, found: Option<SpanRow>) {
    if found.Some? then found.value in rows && KeyOf(found.value) == q
    else forall row :: row in rows ==> KeyOf(row) != q
  }

  function FirstCovering(rows: seq<SpanRow>, q: Query): Option<SpanRow> {
    if rows == [] then None
    else if Milestone(rows[0], q) && RangeCovers(rows[0], q) then Some(rows[0])
    else FirstCovering(rows[1..], q)
  }

  function OrElse<T>(x: Option<T>, y: Option<T>): Option<T> {
    if x.Some? then x else y
  }

  /**
   * What scanning may answer: exact coordinates, then the whole verse for a missing part, then the first
   * covering milestone. The exact queries are unordered, so any row with the coordinates may come back.
   */
  predicate ScanAnswer(rows: seq<SpanRow>, q: Query, found: Option<SpanRow>) {
    if !ExactAnswer(rows, q, None) then found.Some? && ExactAnswer(rows, q, found)
    else if q.part.Some? && !ExactAnswer(rows, WholeOf(q), None) then found.Some? && ExactAnswer(rows, WholeOf(q), found)
    else found == FirstCovering(rows, q)
  }

  method ExactSpan(rows: seq<SpanRow>, q: Query) returns (found: Option<SpanRow>)
    ensures ExactAnswer(rows, q, found)
  {
    found := None;
    if exists row :: row in rows && KeyOf(row) == q {
      var row :| row in rows && KeyOf(row) == q;
      found := Some(row);
    }
  }

  method CoveringSpan(rows: seq<SpanRow>, q: Query) returns (found: Option<SpanRow>)
    ensures found == FirstCovering(rows, q)
  {
    for i := 0 to |rows|
      invariant FirstCovering(rows, q) == FirstCovering(rows[i..], q)
    {
      assert rows[i..][1..] == rows[i + 1..];
      if Milestone(rows[i], q) && RangeCovers(rows[i], q) {
        return Some(rows[i]);
      }
    }
    found := None;
  }

  method FindStoredSpan(rows: seq<SpanRow>, q: Query) returns (found: Option<SpanRow>)
    ensures ScanAnswer(rows, q, found)
  {
    found := ExactSpan(rows, q);
    if found != None {
      return;
    }
    if q.part != None {
      found := ExactSpan(rows, WholeOf(q));
      if found != None {
        return;
      }
    }
    found := CoveringSpan(rows, q);
  }

  // ----- preloaded tables -----

  type ExactTable = map<Query, SpanRow>
  type CoveringTable = map<(string, nat), seq<SpanRow>>

  function ExactOf(rows: seq<SpanRow>): ExactTable {
    if rows == [] then map[]
    else
      var row := rows[|rows| - 1];
      ExactOf(rows[..|rows| - 1])[KeyOf(row) := row]
  }

  function Bucket(table: CoveringTable, book: string, chapter: nat): seq<SpanRow> {
    if (book, chapter) in table then table[(book, chapter)] else []
  }

  function CoveringOf(rows: seq<SpanRow>): CoveringTable {
    if rows == [] then map[]
    else
      var table, row := CoveringOf(rows[..|rows| - 1]), rows[|rows| - 1];
      if row.range.None? then table
      else table[(row.book, row.chapter) := Bucket(table, row.book, row.chapter) + [row]]
  }

  function ExactHit(table: ExactTable, q: Query): Option<SpanRow> {
    if q in table then Some(table[q]) else None
  }

  function Lookup(exact: ExactTable, covering: CoveringTable, q: Query): Option<SpanRow> {
    OrElse(ExactHit(exact, q),
           OrElse(if q.part.Some? then ExactHit(exact, WholeOf(q)) else None,
                  FirstCovering(Bucket(covering, q.book, q.chapter), q)))
  }

  method LoadSpanTables(rows: seq<SpanRow>) returns (exact: ExactTable, covering: CoveringTable)
    ensures exact == ExactOf(rows) && covering == CoveringOf(rows)
  {
    exact, covering := map[], map[];
    for i := 0 to |rows|
      invariant exact == ExactOf(rows[..i]) && covering == CoveringOf(rows[..i])
    {
      assert rows[..i + 1][..i] == rows[..i];
      var row := rows[i];
      exact := exact[KeyOf(row) := row];
      if row.range != None {
        covering := covering[(row.book, row.chapter) := Bucket(covering, row.book, row.chapter) + [row]];
      }
    }
    assert rows[..|rows|] == rows;
  }

  /** Every row of a bucket is a milestone of its book and chapter. */
  ghost predicate Sorted(covering: CoveringTable) {
    forall k, row :: k in covering && row in covering[k] ==> row.book == k.0 && row.chapter == k.1 && row.range.Some?
  }

  method LookupPreloaded(exact: ExactTable, covering: CoveringTable, q: Query) returns (found: Option<SpanRow>)
    requires Sorted(covering)
    ensures found == Lookup(exact, covering, q)
  {
    if q in exact {
      return Some(exact[q]);
    }
    if q.part != None && WholeOf(q) in exact {
      return Some(exact[WholeOf(q)]);
    }
    found := CoveringInBucket(Bucket(covering, q.book, q.chapter), q);
  }

  method CoveringInBucket(rows: seq<SpanRow>, q: Query) returns (found: Option<SpanRow>)
    requires forall row :: row in rows ==> row.book == q.book && row.chapter == q.chapter
    ensures found == FirstCovering(rows, q)
  {
    for i := 0 to |rows|
      invariant FirstCovering(rows, q) == FirstCovering(rows[i..], q)
    {
      assert rows[i..][1..] == rows[i + 1..] && rows[i] in rows;
      if rows[i].range == None {
        continue;
      }
      if RangeCovers(rows[i], q) {
        return Some(rows[i]);
      }
    }
    found := None;
  }

  // ----- agreement -----

  lemma {:induction false} CoveringSorted(rows: seq<SpanRow>)
    ensures Sorted(CoveringOf(rows))
  {
    if rows != [] {
      CoveringSorted(rows[..|rows| - 1]);
    }
  }

  lemma {:induction false} CoveringSnoc(rows: seq<SpanRow>, row: SpanRow, q: Query)
    ensures FirstCovering(rows + [row], q)
            == OrElse(FirstCovering(rows, q), if Milestone(row, q) && RangeCovers(row, q) then Some(row) else None)
  {
    if rows == [] {
      assert ([row])[1..] == [];
      assert FirstCovering([], q) == None;
    } else {
      CoveringSnoc(rows[1..], row, q);
      assert (rows + [row])[1..] == rows[1..] + [row];
    }
  }

  /** Bucketing by book and chapter loses no covering milestone and keeps their order. */
  lemma {:induction false} BucketScans(rows: seq<SpanRow>, q: Query)
    ensures FirstCovering(Bucket(CoveringOf(rows), q.book, q.chapter), q) == FirstCovering(rows, q)
  {
    if rows != [] {
      var init, row := rows[..|rows| - 1], rows[|rows| - 1];
      BucketScans(init, q);
      CoveringSnoc(init, row, q);
      assert rows == init + [row];
      var before, after := Bucket(CoveringOf(init), q.book, q.chapter), Bucket(CoveringOf(rows), q.book, q.chapter);
      if row.range.Some? && row.book == q.book && row.chapter == q.chapter {
        assert after == before + [row];
        CoveringSnoc(before, row, q);
      } else {
        assert after == before;
      }
    }
  }

  /** The exact table answers like a query for exact coordinates. */
  lemma {:induction false} TableAnswers(rows: seq<SpanRow>, q: Query)
    ensures ExactAnswer(rows, q, ExactHit(ExactOf(rows), q))
  {
    if rows != [] {
      TableAnswers(rows[..|rows| - 1], q);
      assert rows == rows[..|rows| - 1] + [rows[|rows| - 1]];
    }
  }

  /** The preloaded tables give one of the answers a scan may give, whatever the rows. */
  lemma LookupIsScanAnswer(rows: seq<SpanRow>, q: Query)
    ensures ScanAnswer(rows, q, Lookup(ExactOf(rows), CoveringOf(rows), q))
  {
    TableAnswers(rows, q);
    TableAnswers(rows, WholeOf(q));
    BucketScans(rows, q);
  }

  /** No two rows of the translation share their coordinates. */
  ghost predicate UniqueCoordinates(rows: seq<SpanRow>) {
    forall i, j :: 0 <= i < j < |rows| ==> KeyOf(rows[i]) != KeyOf(rows[j])
  }

  /** Rows come in reading order, and no two have the same place in it. */
  ghost predicate Ordered(rows: seq<SpanRow>) {
    forall i, j :: 0 <= i < j < |rows| ==> rows[i].order < rows[j].order
  }

  lemma OneRowEach(rows: seq<SpanRow>, q: Query, x: Option<SpanRow>, y: Option<SpanRow>)
    requires UniqueCoordinates(rows) && ExactAnswer(rows, q, x) && ExactAnswer(rows, q, y)
    ensures x == y
  {
    if x.Some? && y.Some? {
      var i :| 0 <= i < |rows| && rows[i] == x.value;
      var j :| 0 <= j < |rows| && rows[j] == y.value;
    }
  }

  lemma OneScanAnswer(rows: seq<SpanRow>, q: Query, x: Option<SpanRow>, y: Option<SpanRow>)
    requires UniqueCoordinates(rows) && ScanAnswer(rows, q, x) && ScanAnswer(rows, q, y)
    ensures x == y
  {
    if !ExactAnswer(rows, q, None) {
      OneRowEach(rows, q, x, y);
    } else if q.part.Some? && !ExactAnswer(rows, WholeOf(q), None) {
      OneRowEach(rows, WholeOf(q), x, y);
    }
  }

  /**
   * Scanning can answer nothing else than the preloaded tables, for every query, exactly when no two
   * rows share their coordinates.
   */
  lemma FindersAgreeIff(rows: seq<SpanRow>)
    requires Ordered(rows)
    ensures (forall q, found :: ScanAnswer(rows, q, found) ==> found == Lookup(ExactOf(rows), CoveringOf(rows), q))
            <==> UniqueCoordinates(rows)
  {
    if UniqueCoordinates(rows) {
      forall q, found | ScanAnswer(rows, q, found) ensures found == Lookup(ExactOf(rows), CoveringOf(rows), q) {
        LookupIsScanAnswer(rows, q);
        OneScanAnswer(rows, q, found, Lookup(ExactOf(rows), CoveringOf(rows), q));
      }
    } else {
      var i, j :| 0 <= i < j < |rows| && KeyOf(rows[i]) == KeyOf(rows[j]);
      assert rows[i].order < rows[j].order;
      var q := KeyOf(rows[i]);
      assert ScanAnswer(rows, q, Some(rows[i])) && ScanAnswer(rows, q, Some(rows[j]));
    }
  }

  /** Load once, then look up: an answer a scan may give, and the only one when coordinates are unique. */
  method FindPreloaded(rows: seq<SpanRow>, q: Query) returns (found: Option<SpanRow>)
    ensures ScanAnswer(rows, q, found)
    ensures UniqueCoordinates(rows) ==> forall other :: ScanAnswer(rows, q, other) ==> other == found
  {
    var exact, covering := LoadSpanTables(rows);
    CoveringSorted(rows);
    found := LookupPreloaded(exact, covering, q);
    LookupIsScanAnswer(rows, q);
    if UniqueCoordinates(rows) {
      forall other | ScanAnswer(rows, q, other) ensures other == found {
        OneScanAnswer(rows, q, other, found);
      }
    }
  }
}
