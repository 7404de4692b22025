/** Ladder runs: contiguous 1:1 relations with a constant offset merge into one row. */
module Runs {
  import opened Refs
  import opened Sorting
  import opened Options
  import opened Schemes
  import opened Classification
  import opened Grouping

  /** Book and chapter/verse offset between two verses. */
  datatype Offset = Offset(book: string, chapters: int, verses: int)

  function OffsetBetween(from: Verse, to: Verse): Offset {
    Offset(to.book, to.chapter - from.chapter, to.verse - from.verse)
  }

  predicate Simple(r: Relation) {
    |r.a| == 1 && |r.b| == 1 && |r.o| == 1
  }

  /** The type column: the event type, else the relation type, else nothing (`SAME`). */
  function Label(r: Relation): Option<Kind> {
    if r.etype.Some? then r.etype else r.kind
  }

  predicate NextVerse(v: Verse, w: Verse) {
    w.book == v.book && w.chapter == v.chapter && w.verse == v.verse + 1
  }

  /** `r` continues the run that `p` ends. */
  predicate Continues(p: Relation, r: Relation) {
    && Simple(p) && Simple(r) && Label(p) == Label(r)
    && OffsetBetween(r.a[0], r.o[0]) == OffsetBetween(p.a[0], p.o[0])
    && OffsetBetween(r.a[0], r.b[0]) == OffsetBetween(p.a[0], p.b[0])
    && NextVerse(p.a[0], r.a[0])
  }

  /** The row being grown. */
  datatype OpenRow = OpenRow(
    a: seq<Verse>, o: seq<Verse>, b: seq<Verse>,
    tag: Option<Kind>, simple: bool, flags: set<Flag>,
    exA: seq<Verse>, exB: seq<Verse>, dO: Offset, dB: Offset
  )

  /** An encoded row: three spans, the type, the flag letters and the two exclusion bits. */
  datatype Row = Row(a: Span, o: Span, b: Span, tag: Option<Kind>, letters: string, exA: bool, exB: bool)

  function Missing(vs: seq<Verse>, present: seq<Verse>): seq<Verse> {
    if vs == [] then []
    else (if vs[0] in present then [] else [vs[0]]) + Missing(vs[1..], present)
  }

  function Start(r: Relation): OpenRow {
    var simple := Simple(r);
    OpenRow(r.a, r.o, r.b, Label(r), simple, r.flags + (if r.warn then {WarnFlag} else {}),
            Missing(r.a, r.ap), Missing(r.b, r.bp),
            if simple then OffsetBetween(r.a[0], r.o[0]) else Offset("", 0, 0),
            if simple then OffsetBetween(r.a[0], r.b[0]) else Offset("", 0, 0))
  }

  function Letters(flags: set<Flag>): string {
    (if ApproxFlag in flags then "a" else "") + (if SegmentFlag in flags then "s" else "")
    + (if VrsFlag in flags then "v" else "") + (if WarnFlag in flags then "w" else "")
  }

  function Encode(ord: BookOrder, row: OpenRow): Row {
    var key := (v: Verse) => VersePos(ord, v);
    Row(SpanOf(StableSort(row.a, key)), SpanOf(StableSort(row.o, key)), SpanOf(StableSort(row.b, key)),
        row.tag, Letters(row.flags), row.exA != [], row.exB != [])
  }

  /** A relation's place on the ladder: its first A verse, or its first B verse when A is empty. */
  function AnchorKey(ord: BookOrder): Relation -> Pos {
    (r: Relation) =>
      if r.a != [] then VersePos(ord, r.a[0]) else if r.b != [] then VersePos(ord, r.b[0]) else Pos(0, 0, 0)
  }

  function Ladder(ord: BookOrder, rs: seq<Relation>): seq<Relation> {
    StableSort(rs, AnchorKey(ord))
  }

  /** The relations of each ladder row. */
  function RowGroups(ord: BookOrder, rs: seq<Relation>): seq<seq<Relation>> {
    Groups(Continues, Ladder(ord, rs))
  }

  function Head(vs: seq<Verse>): Verse {
    if vs == [] then Verse("", 0, 0) else vs[0]
  }

  /** Grow a row by one more 1:1 relation. */
  function Absorb(row: OpenRow, r: Relation): OpenRow {
    row.(a := row.a + [Head(r.a)], o := row.o + [Head(r.o)], b := row.b + [Head(r.b)], flags := row.flags + r.flags)
  }

  /** The row a group of relations grows into. */
  function OpenGroup(g: seq<Relation>): OpenRow {
    if g == [] then OpenRow([], [], [], None, false, {}, [], [], Offset("", 0, 0), Offset("", 0, 0))
    else if |g| == 1 then Start(g[0])
    else Absorb(OpenGroup(g[..|g| - 1]), g[|g| - 1])
  }

  function OpenGroups(gs: seq<seq<Relation>>): seq<OpenRow> {
    if gs == [] then [] else OpenGroups(gs[..|gs| - 1]) + [OpenGroup(gs[|gs| - 1])]
  }

  function EncodeGroups(ord: BookOrder, gs: seq<seq<Relation>>): seq<Row> {
    if gs == [] then [] else EncodeGroups(ord, gs[..|gs| - 1]) + [Encode(ord, OpenGroup(gs[|gs| - 1]))]
  }

  lemma {:induction false} OpenGroupsAt(gs: seq<seq<Relation>>)
    ensures |OpenGroups(gs)| == |gs|
    ensures forall k :: 0 <= k < |gs| ==> OpenGroups(gs)[k] == OpenGroup(gs[k])
  {
    if gs != [] {
      OpenGroupsAt(gs[..|gs| - 1]);
    }
  }

  lemma ShorterChain(g: seq<Relation>)
    requires Chain(Continues, g) && |g| > 1
    ensures Chain(Continues, g[..|g| - 1])
  {
    var h := g[..|g| - 1];
    forall i, j | 0 <= i && j == i + 1 && j < |h| ensures Continues(h[i], h[j]) {
      assert Continues(g[i], g[j]);
    }
  }

  /** The test the loop makes on the open row. */
  predicate Fits(row: OpenRow, r: Relation) {
    && Simple(r) && row.simple && row.tag == Label(r)
    && OffsetBetween(r.a[0], r.o[0]) == row.dO
    && OffsetBetween(r.a[0], r.b[0]) == row.dB
    && row.a != [] && NextVerse(row.a[|row.a| - 1], r.a[0])
  }

  /** The open row remembers its first offset, which every relation in it shares. */
  lemma {:induction false} OpenGroupShape(g: seq<Relation>)
    requires Chain(Continues, g)
    ensures var row, last := OpenGroup(g), Last(g);
            && row.simple == Simple(last) && row.tag == Label(last)
            && (Simple(last) ==>
                  && row.a != [] && row.a[|row.a| - 1] == last.a[0]
                  && row.dO == OffsetBetween(last.a[0], last.o[0]) && row.dB == OffsetBetween(last.a[0], last.b[0]))
  {
    if |g| > 1 {
      ShorterChain(g);
      OpenGroupShape(g[..|g| - 1]);
      assert Continues(g[|g| - 2], g[|g| - 1]);
    }
  }

  /** Testing the open row is the same as testing the relation it ends in. */
  lemma FitsIffContinues(g: seq<Relation>, r: Relation)
    requires Chain(Continues, g)
    ensures Fits(OpenGroup(g), r) <==> Continues(Last(g), r)
  {
    OpenGroupShape(g);
  }

  // ----- decoding -----

  function FirstsA(g: seq<Relation>): seq<Verse> {
    seq(|g|, k requires 0 <= k < |g| => Head(g[k].a))
  }

  function FirstsO(g: seq<Relation>): seq<Verse> {
    seq(|g|, k requires 0 <= k < |g| => Head(g[k].o))
  }

  function FirstsB(g: seq<Relation>): seq<Verse> {
    seq(|g|, k requires 0 <= k < |g| => Head(g[k].b))
  }

  lemma SimpleChain(g: seq<Relation>)
    requires Chain(Continues, g) && Simple(g[0])
    ensures forall r :: r in g ==> Simple(r)
  {
    forall k | 0 <= k < |g| ensures Simple(g[k]) {
      if k > 0 {
        assert Continues(g[k - 1], g[k]);
      }
    }
  }

  /** In a run each of the three sides walks one chapter verse by verse. */
  lemma RunIsConsecutive(g: seq<Relation>)
    requires Chain(Continues, g) && Simple(g[0])
    ensures Consecutive(FirstsA(g)) && Consecutive(FirstsO(g)) && Consecutive(FirstsB(g))
  {
    SimpleChain(g);
    forall k | 0 < k < |g|
      ensures NextVerse(FirstsA(g)[k - 1], FirstsA(g)[k])
      ensures NextVerse(FirstsO(g)[k - 1], FirstsO(g)[k])
      ensures NextVerse(FirstsB(g)[k - 1], FirstsB(g)[k])
    {
      assert Continues(g[k - 1], g[k]);
    }
  }

  lemma {:induction false} OpenGroupLists(g: seq<Relation>)
    requires Chain(Continues, g) && Simple(g[0])
    ensures var row := OpenGroup(g);
            row.a == FirstsA(g) && row.o == FirstsO(g) && row.b == FirstsB(g) && row.tag == Label(g[0])
  {
    if |g| > 1 {
      var init, last := g[..|g| - 1], g[|g| - 1];
      ShorterChain(g);
      OpenGroupLists(init);
      assert FirstsA(g) == FirstsA(init) + [Head(last.a)];
      assert FirstsO(g) == FirstsO(init) + [Head(last.o)];
      assert FirstsB(g) == FirstsB(init) + [Head(last.b)];
    }
  }

  lemma ConsecutiveSorted(ord: BookOrder, vs: seq<Verse>)
    requires Consecutive(vs)
    ensures StableSort(vs, (v: Verse) => VersePos(ord, v)) == vs
  {
    var key := (v: Verse) => VersePos(ord, v);
    forall i, j | 0 <= i < j < |vs| ensures PosLe(key(vs[i]), key(vs[j])) {
      ConsecutiveAt(vs, i);
      ConsecutiveAt(vs, j);
    }
    SortOfSorted(vs, key);
  }

  /** A row of 1:1 relations decodes to exactly its triples: three single-chapter spans of one length. */
  lemma RowDecodes(ord: BookOrder, g: seq<Relation>)
    requires Chain(Continues, g) && Simple(g[0])
    ensures var row := Encode(ord, OpenGroup(g));
            && DecodeSpan(row.a) == FirstsA(g) && DecodeSpan(row.o) == FirstsO(g) && DecodeSpan(row.b) == FirstsB(g)
            && row.a.Span? && row.a.chapter1 == row.a.chapter2
            && row.o.Span? && row.o.chapter1 == row.o.chapter2
            && row.b.Span? && row.b.chapter1 == row.b.chapter2
            && (forall r :: r in g ==> row.tag == Label(r))
  {
    OpenGroupLists(g);
    RunIsConsecutive(g);
    ConsecutiveSorted(ord, FirstsA(g));
    ConsecutiveSorted(ord, FirstsO(g));
    ConsecutiveSorted(ord, FirstsB(g));
    SpanRoundTrip(FirstsA(g));
    SpanRoundTrip(FirstsO(g));
    SpanRoundTrip(FirstsB(g));
    OneLabel(g);
  }

  lemma {:induction false} OneLabel(g: seq<Relation>)
    requires Chain(Continues, g)
    ensures forall r :: r in g ==> Label(r) == Label(g[0])
  {
    if |g| > 1 {
      ShorterChain(g);
      OneLabel(g[..|g| - 1]);
      assert Continues(g[|g| - 2], g[|g| - 1]);
      assert g[|g| - 2] in g[..|g| - 1];
      assert g == g[..|g| - 1] + [g[|g| - 1]];
    }
  }

  // ----- the loop -----

  /** Ladder rows for a classified relation list. */
  method BuildRuns(ord: BookOrder, relations: seq<Relation>) returns (encoded: seq<Row>)
    requires forall r :: r in relations ==> r.a != [] || r.b != []
    ensures encoded == EncodeGroups(ord, RowGroups(ord, relations))
  {
    var ordered := Ladder(ord, relations);
    var rows: seq<OpenRow> := [];
    var current: Option<OpenRow> := None;
    for i := 0 to |ordered|
      invariant Grown(ordered[..i], rows, current)
    {
      var relation := ordered[i];
      assert ordered[..i + 1] == ordered[..i] + [relation];
      GrowStep(ordered[..i], rows, current, relation);
      if current.Some? && Fits(current.value, relation) {
        current := Some(Absorb(current.value, relation));
        continue;
      }
      if current.Some? {
        rows := rows + [current.value];
      }
      current := Some(Start(relation));
    }
    assert ordered[..|ordered|] == ordered;
    GrownAll(ordered, rows, current);
    if current.Some? {
      rows := rows + [current.value];
    }
    encoded := EncodeAll(ord, rows, RowGroups(ord, relations));
  }

  method EncodeAll(ord: BookOrder, rows: seq<OpenRow>, ghost gs: seq<seq<Relation>>) returns (encoded: seq<Row>)
    requires rows == OpenGroups(gs)
    ensures encoded == EncodeGroups(ord, gs)
  {
    OpenGroupsAt(gs);
    encoded := [];
    for i := 0 to |rows|
      invariant encoded == EncodeGroups(ord, gs[..i])
    {
      assert gs[..i + 1][..i] == gs[..i];
      encoded := encoded + [Encode(ord, rows[i])];
    }
    assert gs[..|gs|] == gs;
  }

  /** The finished rows and the open one are the groups of the relations seen so far. */
  ghost predicate Grown(seen: seq<Relation>, rows: seq<OpenRow>, current: Option<OpenRow>) {
    var gs := Groups(Continues, seen);
    if current.None? then seen == [] && rows == []
    else gs != [] && rows == OpenGroups(gs[..|gs| - 1]) && current.value == OpenGroup(Last(gs))
  }

  lemma GrowStep(seen: seq<Relation>, rows: seq<OpenRow>, current: Option<OpenRow>, r: Relation)
    requires Grown(seen, rows, current)
    ensures var fits := current.Some? && Fits(current.value, r);
            Grown(seen + [r],
                  if fits || current.None? then rows else rows + [current.value],
                  Some(if fits then Absorb(current.value, r) else Start(r)))
  {
    var gs := Groups(Continues, seen);
    GroupsMaximal(Continues, seen);
    GroupsSnoc(Continues, seen, r);
    if current.None? {
      ExtendOpens(Continues, gs, r);
    } else {
      var g := Last(gs);
      assert g in gs && Chain(Continues, g);
      FitsIffContinues(g, r);
      if Fits(current.value, r) {
        ExtendJoins(Continues, gs, r);
        assert (g + [r])[..|g|] == g;
      } else {
        ExtendOpens(Continues, gs, r);
      }
    }
  }

  lemma GrownAll(seen: seq<Relation>, rows: seq<OpenRow>, current: Option<OpenRow>)
    requires Grown(seen, rows, current)
    ensures rows + (if current.Some? then [current.value] else []) == OpenGroups(Groups(Continues, seen))
  {
  }

  /** Rows lose no relation, keep ladder order, and no two neighbours could have merged. */
  lemma RowsAreLosslessAndMaximal(ord: BookOrder, rs: seq<Relation>)
    ensures Flatten(RowGroups(ord, rs)) == Ladder(ord, rs)
    ensures multiset(Ladder(ord, rs)) == multiset(rs) && SortedBy(Ladder(ord, rs), AnchorKey(ord))
    ensures Maximal(Continues, RowGroups(ord, rs))
  {
    GroupsMaximal(Continues, Ladder(ord, rs));
    SortSorts(rs, AnchorKey(ord));
  }

  // ----- reading the ladder back -----

  /** One decoded line of the ladder: the three coordinates and the type. */
  datatype Line = Line(a: Verse, o: Verse, b: Verse, tag: Option<Kind>)

  function LinesOf(rs: seq<Relation>): seq<Line> {
    seq(|rs|, k requires 0 <= k < |rs| => Line(Head(rs[k].a), Head(rs[k].o), Head(rs[k].b), Label(rs[k])))
  }

  /** Expand one row: its three spans, side by side. */
  function ReadRow(row: Row): seq<Line> {
    var a, o, b := DecodeSpan(row.a), DecodeSpan(row.o), DecodeSpan(row.b);
    if |a| == |o| == |b| then seq(|a|, k requires 0 <= k < |a| => Line(a[k], o[k], b[k], row.tag)) else []
  }

  lemma ReadRowBack(ord: BookOrder, g: seq<Relation>)
    requires Chain(Continues, g) && Simple(g[0])
    ensures ReadRow(Encode(ord, OpenGroup(g))) == LinesOf(g)
  {
    RowDecodes(ord, g);
    var row := Encode(ord, OpenGroup(g));
    forall k | 0 <= k < |g| ensures row.tag == Label(g[k]) {
      assert g[k] in g;
    }
    assert |ReadRow(row)| == |g|;
    forall k | 0 <= k < |g| ensures ReadRow(row)[k] == LinesOf(g)[k] {
      assert FirstsA(g)[k] == Head(g[k].a) && FirstsO(g)[k] == Head(g[k].o) && FirstsB(g)[k] == Head(g[k].b);
    }
  }

  /**
   * Row by row, in any ladder: a row that opens with a 1:1 relation reads back to the lines of all its
   * relations, and any other row stands for one relation alone, with its type.
   */
  lemma RowReadsBack(ord: BookOrder, rs: seq<Relation>, k: nat)
    requires k < |RowGroups(ord, rs)|
    ensures |EncodeGroups(ord, RowGroups(ord, rs))| == |RowGroups(ord, rs)|
    ensures var g, row := RowGroups(ord, rs)[k], EncodeGroups(ord, RowGroups(ord, rs))[k];
            && g != []
            && (Simple(g[0]) ==> ReadRow(row) == LinesOf(g))
            && (!Simple(g[0]) ==> |g| == 1 && row == Encode(ord, Start(g[0])))
  {
    GroupsMaximal(Continues, Ladder(ord, rs));
    EncodeGroupsAt(ord, RowGroups(ord, rs));
    var g := RowGroups(ord, rs)[k];
    assert g in RowGroups(ord, rs) && Chain(Continues, g);
    assert |g| > 1 ==> Continues(g[0], g[1]);
    if Simple(g[0]) {
      ReadRowBack(ord, g);
    }
  }

  /** Relations without a type or an event make rows without a type. */
  lemma UntypedRows(ord: BookOrder, rs: seq<Relation>, k: nat)
    requires forall r :: r in rs ==> Label(r) == None
    requires k < |RowGroups(ord, rs)|
    ensures k < |EncodeGroups(ord, RowGroups(ord, rs))| && EncodeGroups(ord, RowGroups(ord, rs))[k].tag == None
  {
    RowsAreLosslessAndMaximal(ord, rs);
    SortMembers(rs, AnchorKey(ord));
    var gs := RowGroups(ord, rs);
    var g := gs[k];
    assert g in gs && Chain(Continues, g);
    FlattenMembers(gs, Last(g));
    assert Last(g) in g;
    OpenGroupShape(g);
    EncodeGroupsAt(ord, gs);
  }

  lemma {:induction false} EncodeGroupsAt(ord: BookOrder, gs: seq<seq<Relation>>)
    ensures |EncodeGroups(ord, gs)| == |gs|
    ensures forall k :: 0 <= k < |gs| ==> EncodeGroups(ord, gs)[k] == Encode(ord, OpenGroup(gs[k]))
  {
    if gs != [] {
      var n := |gs| - 1;
      var init := EncodeGroups(ord, gs[..n]);
      EncodeGroupsAt(ord, gs[..n]);
      assert EncodeGroups(ord, gs) == init + [Encode(ord, OpenGroup(gs[n]))];
      forall k | 0 <= k < |gs| ensures EncodeGroups(ord, gs)[k] == Encode(ord, OpenGroup(gs[k])) {
        if k < n {
          assert gs[..n][k] == gs[k];
        }
      }
    }
  }
}
