/** One whole comparison: compose, classify, draw events, encode the ladder. */
module Comparison {
  import opened Refs
  import opened Sorting
  import opened Options
  import opened Schemes
  import opened DisjointSets
  import opened Classification
  import opened Composition
  import opened CompositionRun
  import opened Events
  import opened EventsRun
  import opened Bridges
  import opened EventList
  import opened SelfEvents
  import SelfComparison
  import Runs

  predicate Placed(r: Relation) {
    r.a != [] || r.b != []
  }

  lemma BookHasVerses(vs: seq<Verse>, book: string)
    requires book in BookList(vs)
    ensures OfBook(vs, book) != []
  {
    var v :| v in vs && v.book == book;
    assert v in OfBook(vs, book);
  }

  lemma PiecesByAPlaced(r: Relation, books: seq<string>)
    requires forall book :: book in books ==> book in BookList(r.a)
    ensures forall p :: p in PiecesByBookA(r, books) ==> Placed(p)
  {
    forall k | 0 <= k < |books| ensures Placed(PiecesByBookA(r, books)[k]) {
      BookHasVerses(r.a, books[k]);
    }
  }

  lemma PiecesByCommonPlaced(r: Relation, books: seq<string>)
    requires forall book :: book in books ==> book in BookList(r.a)
    ensures forall p :: p in PiecesByCommonBook(r, books) ==> Placed(p)
  {
    forall k | 0 <= k < |books| ensures Placed(PiecesByCommonBook(r, books)[k]) {
      BookHasVerses(r.a, books[k]);
    }
  }

  lemma SortedBooks(ord: BookOrder, books: seq<string>)
    ensures forall book :: book in Sorted(ord, books) ==> book in books
  {
    SortMembers(books, (book: string) => Pos(ord(book), 0, 0));
  }

  lemma PiecesPlaced(ord: BookOrder, r: Relation, p: Relation)
    requires Placed(r) && p in SplitAlternates(ord, r)
    ensures Placed(p)
  {
    var booksA, booksB := BookList(r.a), BookList(r.b);
    var common := BookSet(r.a) * BookSet(r.b);
    if booksA == [] || booksB == [] || (|booksA| == 1 && |booksB| == 1) {
    } else if common == {} {
      SortedBooks(ord, booksA);
      PiecesByAPlaced(r, Sorted(ord, booksA));
    } else {
      SortedBooks(ord, KeepBooks(booksA, common));
      PiecesByCommonPlaced(r, Sorted(ord, KeepBooks(booksA, common)));
    }
  }

  lemma {:induction false} RelationsPlaced(ord: BookOrder, cs: seq<seq<Node>>, st: Scan, collide: set<Node>, a: Scheme, b: Scheme)
    ensures forall r :: r in ComponentRelations(ord, cs, st, collide, a, b) ==> Placed(r)
  {
    if cs != [] {
      RelationsPlaced(ord, cs[..|cs| - 1], st, collide, a, b);
      var r := ComponentRelation(ord, cs[|cs| - 1], st, collide, a, b);
      if Placed(r) {
        forall p | p in SplitAlternates(ord, r) ensures Placed(p) {
          PiecesPlaced(ord, r, p);
        }
      }
    }
  }

  /** Classification moves no verse. */
  lemma ClassifiedPlaced(ord: BookOrder, rs: seq<Relation>, a: Scheme, b: Scheme, out: seq<Relation>)
    requires Classified(ord, rs, a, b, out) && forall r :: r in rs ==> Placed(r)
    ensures forall r :: r in out ==> Placed(r)
  {
    ClassifiedKeeps(ord, rs, a, b, out);
    forall i | 0 <= i < |out| ensures Placed(out[i]) {
      assert rs[i] in rs && Keeps(rs[i], out[i], a, b);
    }
  }

  /** Drawing events moves no verse. */
  lemma DrawnPlaced(ord: BookOrder, rs: seq<Relation>)
    requires forall r :: r in rs ==> Placed(r)
    ensures forall r :: r in Drawn(ord, rs) ==> Placed(r)
  {
    var mid := AfterBoth(ord, rs);
    DrawingKeepsRest(BothPass, rs, BothGroups(ord, rs));
    DrawingKeepsRest(LonePass, mid, LoneGroups(ord, mid));
    forall i | 0 <= i < |rs| ensures Placed(Drawn(ord, rs)[i]) {
      assert rs[i] in rs;
    }
  }

  /** A classified relation list that explains what a comparison returns: its sorted events and its ladder rows. */
  ghost predicate Explains(ord: BookOrder, a: Scheme, b: Scheme, org: Option<Scheme>, out: seq<Relation>,
                           events: seq<Entry>, rows: seq<Runs.Row>) {
    && Classified(ord, Composed(ord, a, b, org), a, b, out)
    && (exists built :: Built(ord, out, a, b, built) && events == StableSort(built, EntryKey(ord)))
    && rows == Runs.EncodeGroups(ord, Runs.RowGroups(ord, Drawn(ord, out)))
  }

  /** The comparison pipeline: compose and classify, build and sort the events, encode the ladder. */
  method CompareSchemes(ord: BookOrder, a: Scheme, b: Scheme, org: Option<Scheme>) returns (events: seq<Entry>, rows: seq<Runs.Row>)
    ensures exists out :: Explains(ord, a, b, org, out, events, rows)
  {
    var table := ComposeSchemes(ord, a, b, org);
    ghost var out := table.items;
    var built := BuildEvents(ord, table, a, b);
    events := StableSort(built, EntryKey(ord));
    ComposedPlaced(ord, a, b, org);
    ClassifiedPlaced(ord, Composed(ord, a, b, org), a, b, out);
    DrawnPlaced(ord, out);
    rows := Runs.BuildRuns(ord, table.items);
    assert Explains(ord, a, b, org, out, events, rows);
  }

  lemma ComposedPlaced(ord: BookOrder, a: Scheme, b: Scheme, org: Option<Scheme>)
    ensures forall r :: r in Composed(ord, a, b, org) ==> Placed(r)
  {
    var st := ScanBoth(ord, a, b, org);
    RelationsPlaced(ord, Components(st.links, st.nodes), st, Collisions(st.claims), a, b);
  }

  /**
   * A scheme compared with itself, through any root or none: every ladder row is of the type SAME, and
   * there is no event exactly when its bridges and its parts respect the verses that share a root.
   */
  lemma SelfExplained(ord: BookOrder, s: Scheme, org: Option<Scheme>, out: seq<Relation>, events: seq<Entry>, rows: seq<Runs.Row>)
    requires Explains(ord, s, s, org, out, events, rows)
    ensures forall row :: row in rows ==> row.tag == None
    ensures events == [] <==> BridgesRespected(ord, s, org) && PartsRespected(ord, s, org)
  {
    var built :| Built(ord, out, s, s, built) && events == StableSort(built, EntryKey(ord));
    SortMembers(built, EntryKey(ord));
    SelfBuilt(ord, s, org, out, built);
    SelfComparison.SelfComparisonIsClean(ord, s, org, out);
    UntypedDrawsNothing(ord, out);
    Runs.EncodeGroupsAt(ord, Runs.RowGroups(ord, out));
    forall k | 0 <= k < |rows| ensures rows[k].tag == None {
      Runs.UntypedRows(ord, out, k);
    }
  }

  /** Two schemes that show divergences from themselves: a bridge over an excluded verse, and a part on one of two joined verses. */
  lemma SelfComparisonCanShow(ord: BookOrder, s: Scheme, org: Option<Scheme>, out: seq<Relation>, events: seq<Entry>, rows: seq<Runs.Row>)
    requires s == ExcludedBridge() || s == PartOfOne()
    requires Explains(ord, s, s, org, out, events, rows)
    ensures events != []
  {
    SelfExplained(ord, s, org, out, events, rows);
    if s == ExcludedBridge() {
      ExcludedBridgeRunsAgainst(ord, s, org);
    } else {
      PartOfOneRunsAgainst(ord, s, org);
    }
  }
}
