/** The whole event list of a comparison: grouped relations, bridges, parts, folded books; then sorted for the payload. */
module EventList {
  import opened Refs
  import opened Sorting
  import opened Options
  import opened Schemes
  import opened Classification
  import opened ClassificationRun
  import opened ClassificationLaws
  import opened Grouping
  import opened Events
  import opened EventsRun
  import opened Bridges
  import opened BookFolds

  function Wrap(events: seq<Event>): (entries: seq<Entry>)
    ensures |entries| == |events| && forall i :: 0 <= i < |events| ==> entries[i] == Grouped(events[i])
  {
    seq(|events|, i requires 0 <= i < |events| => Grouped(events[i]))
  }

  /** Bridges and parts as the drawn relations `rs` show them. */
  ghost predicate BridgesAndParts(ord: BookOrder, rs: seq<Relation>, a: Scheme, b: Scheme,
                                  onA: seq<Entry>, onB: seq<Entry>, parts: seq<Entry>) {
    var fromA, fromB := CrossOf(rs, true), CrossOf(rs, false);
    && BridgesShown(ord, true, a.bridges, b.bridges, fromA, onA)
    && BridgesShown(ord, false, b.bridges, a.bridges, fromB, onB)
    && SegmentsShown(fromA, fromA.keys, a, b, parts)
  }

  /** `events` finishes the events `grouped` of the drawn relations. */
  ghost predicate Finished(ord: BookOrder, grouped: seq<Event>, drawn: seq<Relation>, a: Scheme, b: Scheme, events: seq<Entry>) {
    exists onA, onB, parts ::
      BridgesAndParts(ord, drawn, a, b, onA, onB, parts) && events == Fold(Wrap(grouped) + (onA + onB + parts), a, b)
  }

  /** `events` is what a classified relation list `rs` gives rise to. */
  ghost predicate Built(ord: BookOrder, rs: seq<Relation>, a: Scheme, b: Scheme, events: seq<Entry>) {
    Finished(ord, RelationEvents(ord, rs), Drawn(ord, rs), a, b, events)
  }

  method BridgeAndSegmentEvents(ord: BookOrder, rs: seq<Relation>, a: Scheme, b: Scheme)
      returns (events: seq<Entry>, ghost onA: seq<Entry>, ghost onB: seq<Entry>, ghost parts: seq<Entry>)
    ensures BridgesAndParts(ord, rs, a, b, onA, onB, parts) && events == onA + onB + parts
  {
    var fromA, fromB := CrossTables(rs);
    CrossKeyed(rs, true);
    var first := AddBridges(ord, true, a.bridges, b.bridges, fromA);
    var second := AddBridges(ord, false, b.bridges, a.bridges, fromB);
    var third := AddSegments(fromA, a, b);
    events := first + second + third;
    onA, onB, parts := first, second, third;
  }

  method FinishEvents(ord: BookOrder, grouped: seq<Event>, drawn: seq<Relation>, a: Scheme, b: Scheme) returns (events: seq<Entry>)
    ensures Finished(ord, grouped, drawn, a, b, events)
  {
    var added, onA, onB, parts := BridgeAndSegmentEvents(ord, drawn, a, b);
    events := FoldBookOneSided(Wrap(grouped) + added, a, b);
  }

  /** Collapse relations into events, add bridges and parts, fold one-sided books; event types are written back. */
  method BuildEvents(ord: BookOrder, table: RelationTable, a: Scheme, b: Scheme) returns (events: seq<Entry>)
    modifies table
    ensures Built(ord, old(table.items), a, b, events)
    ensures table.items == Drawn(ord, old(table.items))
  {
    var grouped := DrawEvents(ord, table);
    events := FinishEvents(ord, grouped, table.items, a, b);
  }

  /** Place in the payload: side A's span, or side B's when there is none. */
  function EntryKey(ord: BookOrder): Entry -> Pos {
    (e: Entry) =>
      var span := if SideSpan(e, true).Span? then SideSpan(e, true) else SideSpan(e, false);
      if span.Span? then Pos(ord(span.book), span.chapter1, span.verse1) else Pos(0, 0, 0)
  }

  // ----- spans of one-sided events -----

  /** A relation of one-sided type lists nothing on the side where nothing is present. */
  predicate BareSide(r: Relation) {
    r.kind == Some(OneSided) ==> (r.ap == [] && r.a == [] && r.bp != []) || (r.bp == [] && r.b == [] && r.ap != [])
  }

  lemma ClassifiedBare(ord: BookOrder, rs: seq<Relation>, a: Scheme, b: Scheme, out: seq<Relation>)
    requires Classified(ord, rs, a, b, out)
    ensures forall r :: r in out ==> BareSide(r)
  {
    var first := FirstPassAll(rs, a, b);
    var marked: set<nat> :| Marking(ord, first, marked) && out == Mark(first, marked);
    forall i | 0 <= i < |out| ensures BareSide(out[i]) {
      FirstPassBare(rs[i], a, b);
    }
  }

  lemma FirstPassBare(r: Relation, a: Scheme, b: Scheme)
    ensures BareSide(FirstPass(r, a, b))
  {
    FirstPassMeans(r, a, b);
    var t := FirstPass(r, a, b);
    PresentOfNone(r.a, a.excluded);
    PresentOfNone(r.b, b.excluded);
    if TwoSided(t) {
      KindNeverInverts(t.ap, t.bp, r.flags);
    }
  }

  /** In a group of the one-sided pass every relation is like the first. */
  lemma {:induction false} LoneGroupAlike(rs: seq<Relation>, g: seq<nat>, k: nat)
    requires Chain(LinkBy(rs, SameLoneEvent), g) && k < |g| && g[0] < |rs|
    ensures g[k] < |rs| && rs[g[k]].kind == rs[g[0]].kind && MissingSide(rs[g[k]]) == MissingSide(rs[g[0]])
  {
    if k > 0 {
      LoneGroupAlike(rs, g, k - 1);
      assert LinkBy(rs, SameLoneEvent)(g[k - 1], g[k]);
    }
  }

  lemma {:induction false} CollectNothing(rs: seq<Relation>, g: seq<nat>, pick: Relation -> seq<Verse>)
    requires forall i :: i in g && i < |rs| ==> pick(rs[i]) == []
    ensures Collect(rs, g, pick) == []
  {
    if g != [] {
      assert forall i :: i in g[..|g| - 1] ==> i in g;
      CollectNothing(rs, g[..|g| - 1], pick);
      assert g[|g| - 1] in g;
    }
  }

  lemma LoneGroupSpan(ord: BookOrder, rs: seq<Relation>, g: seq<nat>)
    requires Chain(LinkBy(rs, SameLoneEvent), g) && g[0] < |rs| && rs[g[0]].kind == Some(OneSided)
    requires forall r :: r in rs ==> BareSide(r)
    ensures var e := EventOf(ord, rs, PassKind(LonePass, rs, g), g, PassFlags(LonePass, rs, g)); e.a == NoSpan || e.b == NoSpan
  {
    forall i | i in g ensures i < |rs| && rs[i].kind == Some(OneSided) && MissingSide(rs[i]) == MissingSide(rs[g[0]]) && BareSide(rs[i]) {
      var k :| 0 <= k < |g| && g[k] == i;
      LoneGroupAlike(rs, g, k);
      assert rs[i] in rs;
    }
    assert g[0] in g;
    if MissingSide(rs[g[0]]) == MissingInA {
      CollectNothing(rs, g, (r: Relation) => r.ap);
      CollectNothing(rs, g, (r: Relation) => r.a);
    } else {
      CollectNothing(rs, g, (r: Relation) => r.bp);
      CollectNothing(rs, g, (r: Relation) => r.b);
    }
  }

  lemma {:induction false} EventOrigin(ord: BookOrder, pass: Pass, rs: seq<Relation>, gs: seq<seq<nat>>, e: Event) returns (g: seq<nat>)
    requires e in EventsOf(ord, pass, rs, gs)
    ensures g in gs && e == EventOf(ord, rs, PassKind(pass, rs, g), g, PassFlags(pass, rs, g))
  {
    g := gs[|gs| - 1];
    if e in EventsOf(ord, pass, rs, gs[..|gs| - 1]) {
      g := EventOrigin(ord, pass, rs, gs[..|gs| - 1], e);
    }
  }

  lemma OrderedIndices(ord: BookOrder, rs: seq<Relation>, i: nat)
    ensures i in BothOrder(ord, rs) ==> i < |rs| && DrawnTwoSided(rs[i])
    ensures i in LoneOrder(ord, rs) ==> i < |rs| && Lone(rs[i])
  {
    SortMembers(Where(rs, DrawnTwoSided), KeyA(ord, rs));
    SortMembers(Where(rs, DrawnLoneOnA), Events.AnchorKey(ord, rs));
    SortMembers(Where(rs, DrawnLoneOnB), Events.AnchorKey(ord, rs));
  }

  lemma TwoSidedGroupKind(rs: seq<Relation>, g: seq<nat>)
    requires g != [] && g[0] < |rs| && DrawnTwoSided(rs[g[0]]) && KindFits(rs[g[0]])
    ensures GroupKind(rs, g) != OneSided
  {
    assert FirstKind(rs, g) != OneSided;
  }

  lemma BothEventTwoSided(ord: BookOrder, rs: seq<Relation>, e: Event)
    requires forall r :: r in rs ==> KindFits(r)
    requires e in EventsOf(ord, BothPass, rs, BothGroups(ord, rs))
    ensures e.kind != OneSided
  {
    var g := EventOrigin(ord, BothPass, rs, BothGroups(ord, rs), e);
    GroupsMaximal(LinkBy(rs, SameEvent), BothOrder(ord, rs));
    assert Chain(LinkBy(rs, SameEvent), g);
    FlattenMembers(BothGroups(ord, rs), g[0]);
    assert g[0] in g;
    OrderedIndices(ord, rs, g[0]);
    assert rs[g[0]] in rs;
    TwoSidedGroupKind(rs, g);
    assert PassKind(BothPass, rs, g) == GroupKind(rs, g);
  }

  lemma LoneGroupShape(ord: BookOrder, rs: seq<Relation>, g: seq<nat>)
    requires g in LoneGroups(ord, rs)
    ensures Chain(LinkBy(rs, SameLoneEvent), g) && g[0] < |rs| && Lone(rs[g[0]])
  {
    GroupsMaximal(LinkBy(rs, SameLoneEvent), LoneOrder(ord, rs));
    assert Chain(LinkBy(rs, SameLoneEvent), g);
    FlattenMembers(LoneGroups(ord, rs), g[0]);
    assert g[0] in g;
    OrderedIndices(ord, rs, g[0]);
  }

  lemma LoneEventOneSpan(ord: BookOrder, rs: seq<Relation>, e: Event)
    requires forall r :: r in rs ==> BareSide(r)
    requires e in EventsOf(ord, LonePass, rs, LoneGroups(ord, rs)) && e.kind == OneSided
    ensures e.a == NoSpan || e.b == NoSpan
  {
    var g := EventOrigin(ord, LonePass, rs, LoneGroups(ord, rs), e);
    LoneGroupShape(ord, rs, g);
    assert PassKind(LonePass, rs, g) == FirstKind(rs, g);
    LoneGroupSpan(ord, rs, g);
  }

  lemma RelationEventsOneSpan(ord: BookOrder, rs: seq<Relation>, e: Event)
    requires forall r :: r in rs ==> KindFits(r) && BareSide(r)
    requires e in RelationEvents(ord, rs) && e.kind == OneSided
    ensures e.a == NoSpan || e.b == NoSpan
  {
    var mid := AfterBoth(ord, rs);
    DrawingKeepsRest(BothPass, rs, BothGroups(ord, rs));
    forall i | 0 <= i < |mid| ensures BareSide(mid[i]) {
      assert rs[i] in rs;
    }
    if e in EventsOf(ord, BothPass, rs, BothGroups(ord, rs)) {
      BothEventTwoSided(ord, rs, e);
    } else {
      LoneEventOneSpan(ord, mid, e);
    }
  }

  lemma {:induction false} BridgesAreBridges(ord: BookOrder, onA: bool, bridges: seq<Bridge>, other: seq<Bridge>, cross: Cross, events: seq<Entry>)
    requires BridgesShown(ord, onA, bridges, other, cross, events)
    ensures forall e :: e in events ==> e.BridgeEntry?
  {
    if bridges != [] {
      var init, g := bridges[..|bridges| - 1], bridges[|bridges| - 1];
      if Bridged(other, Counterpart(cross, BridgeVerses(g))) {
        BridgesAreBridges(ord, onA, init, other, cross, events);
      } else {
        BridgesAreBridges(ord, onA, init, other, cross, events[..|events| - 1]);
        assert events == events[..|events| - 1] + [events[|events| - 1]];
      }
    }
  }

  lemma {:induction false} SegmentsAreSegments(cross: Cross, keys: seq<Verse>, a: Scheme, b: Scheme, events: seq<Entry>)
    requires SegmentsShown(cross, keys, a, b, events)
    ensures forall e :: e in events ==> e.SegmentEntry?
  {
    if keys != [] {
      var init, v := keys[..|keys| - 1], keys[|keys| - 1];
      var n: nat :| n <= |events| && KeyShown(cross, v, a, b, events[n..]) && SegmentsShown(cross, init, a, b, events[..n]);
      SegmentsAreSegments(cross, init, a, b, events[..n]);
      KeyShowsSegments(cross, v, a, b, events[n..]);
      assert events == events[..n] + events[n..];
    }
  }

  lemma KeyShowsSegments(cross: Cross, v: Verse, a: Scheme, b: Scheme, events: seq<Entry>)
    requires KeyShown(cross, v, a, b, events)
    ensures forall e :: e in events ==> e.SegmentEntry?
  {
    var ws: seq<Verse> :| multiset(ws) == multiset(Differing(cross, v, a, b)) && events == SegmentsOf(v, ws, a, b);
  }

  /**
   * In the finished event list of any comparison, a book has an event of its own exactly when the other
   * scheme lacks it and at least half of its verses were in one-sided events.
   */
  lemma BookEventIff(ord: BookOrder, rs: seq<Relation>, a: Scheme, b: Scheme, out: seq<Relation>, events: seq<Entry>, onA: bool, book: string)
    requires Classified(ord, rs, a, b, out) && Built(ord, out, a, b, events)
    ensures WholeIn(events, onA, book) <==>
            if onA then book in a.books && Folds(Wrap(RelationEvents(ord, out)), true, a, b, book)
            else book in b.books && Folds(Wrap(RelationEvents(ord, out)), false, b, a, book)
  {
    GroupedOneSpan(ord, rs, a, b, out);
    FinishedFolds(ord, RelationEvents(ord, out), Drawn(ord, out), a, b, events, onA, book);
  }

  lemma FinishedFolds(ord: BookOrder, events: seq<Event>, drawn: seq<Relation>, a: Scheme, b: Scheme, out: seq<Entry>, onA: bool, book: string)
    requires Finished(ord, events, drawn, a, b, out) && OneSpanEach(Wrap(events))
    ensures WholeIn(out, onA, book) <==>
            if onA then book in a.books && Folds(Wrap(events), true, a, b, book)
            else book in b.books && Folds(Wrap(events), false, b, a, book)
  {
    var partA, partB, parts :| BridgesAndParts(ord, drawn, a, b, partA, partB, parts)
                               && out == Fold(Wrap(events) + (partA + partB + parts), a, b);
    AddedAreNotGrouped(ord, drawn, a, b, partA, partB, parts);
    FoldsAmong(Wrap(events), partA + partB + parts, a, b, onA, book);
  }

  lemma GroupedOneSpan(ord: BookOrder, rs: seq<Relation>, a: Scheme, b: Scheme, out: seq<Relation>)
    requires Classified(ord, rs, a, b, out)
    ensures OneSpanEach(Wrap(RelationEvents(ord, out)))
  {
    var events := RelationEvents(ord, out);
    var grouped := Wrap(events);
    ClassifiedKindsFit(ord, rs, a, b, out);
    ClassifiedBare(ord, rs, a, b, out);
    forall e: Entry | e in grouped && e.Grouped? && e.event.kind == OneSided ensures e.event.a == NoSpan || e.event.b == NoSpan {
      var i :| 0 <= i < |grouped| && grouped[i] == e;
      assert e.event == events[i];
      RelationEventsOneSpan(ord, out, e.event);
    }
  }

  /** Events that are not grouped relations have no part in folding. */
  lemma FoldsAmong(grouped: seq<Entry>, added: seq<Entry>, a: Scheme, b: Scheme, onA: bool, book: string)
    requires OneSpanEach(grouped) && forall e :: e in grouped ==> e.Grouped?
    requires forall e :: e in added ==> !e.Grouped? && !e.BookEntry?
    ensures WholeIn(Fold(grouped + added, a, b), onA, book) <==>
            if onA then book in a.books && Folds(grouped, true, a, b, book)
            else book in b.books && Folds(grouped, false, b, a, book)
  {
    FoldsIff(grouped + added, a, b, onA, book);
    SelectConcat(grouped, added, onA, book);
    NothingSelected(added, onA, book);
    assert Select(grouped + added, onA, book) == Select(grouped, onA, book);
  }

  lemma AddedAreNotGrouped(ord: BookOrder, rs: seq<Relation>, a: Scheme, b: Scheme, onA: seq<Entry>, onB: seq<Entry>, parts: seq<Entry>)
    requires BridgesAndParts(ord, rs, a, b, onA, onB, parts)
    ensures forall e :: e in onA + onB + parts ==> !e.Grouped? && !e.BookEntry?
  {
    BridgesAreBridges(ord, true, a.bridges, b.bridges, CrossOf(rs, true), onA);
    BridgesAreBridges(ord, false, b.bridges, a.bridges, CrossOf(rs, false), onB);
    SegmentsAreSegments(CrossOf(rs, true), CrossOf(rs, true).keys, a, b, parts);
  }

  lemma {:induction false} NothingSelected(events: seq<Entry>, onA: bool, book: string)
    requires forall e :: e in events ==> !e.Grouped?
    ensures Select(events, onA, book) == []
  {
    if events != [] {
      NothingSelected(events[1..], onA, book);
    }
  }
}
