/** The event loops, and what grouping keeps: every typed relation once, and exact spans for 1:1 shifts. */
module EventsRun {
  import opened Refs
  import opened Sorting
  import opened Options
  import opened Schemes
  import opened Classification
  import opened ClassificationRun
  import opened Grouping
  import opened Events
  import Runs

  // ----- the loops -----

  /** Emit one group: draw its relations and append its event. */
  method Emit(ord: BookOrder, pass: Pass, table: RelationTable, rs: seq<Relation>, g: seq<nat>) returns (event: Event)
    modifies table
    ensures table.items == DrawGroup(old(table.items), g, PassKind(pass, rs, g))
    ensures event == EventOf(ord, rs, PassKind(pass, rs, g), g, PassFlags(pass, rs, g))
  {
    var kind := PassKind(pass, rs, g);
    ghost var before := table.items;
    for k := 0 to |g|
      invariant table.items == DrawGroup(before, g[..k], kind)
    {
      assert g[..k + 1] == g[..k] + [g[k]];
      if g[k] < |table.items| {
        table.items := table.items[g[k] := table.items[g[k]].(etype := Some(kind))];
      }
    }
    assert g[..|g|] == g;
    event := EventOf(ord, rs, kind, g, PassFlags(pass, rs, g));
  }

  /** Closed groups are drawn; the open group is the last one. */
  ghost predicate InPass(ord: BookOrder, pass: Pass, rs: seq<Relation>, seen: seq<nat>,
                         items: seq<Relation>, events: seq<Event>, group: seq<nat>) {
    var gs := Groups(PassLink(pass, rs), seen);
    if group == [] then seen == [] && items == rs && events == []
    else
      && gs != [] && group == Last(gs)
      && items == DrawAll(pass, rs, gs[..|gs| - 1])
      && events == EventsOf(ord, pass, rs, gs[..|gs| - 1])
  }

  lemma PassOpen(ord: BookOrder, pass: Pass, rs: seq<Relation>, items: seq<Relation>, events: seq<Event>, i: nat)
    requires InPass(ord, pass, rs, [], items, events, [])
    ensures InPass(ord, pass, rs, [i], items, events, [i])
  {
    var link := PassLink(pass, rs);
    var none: seq<nat> := [];
    assert none + [i] == [i];
    GroupsSnoc(link, none, i);
    ExtendOpens(link, Groups(link, none), i);
  }

  lemma PassExtend(ord: BookOrder, pass: Pass, rs: seq<Relation>, seen: seq<nat>,
                   items: seq<Relation>, events: seq<Event>, group: seq<nat>, i: nat)
    requires InPass(ord, pass, rs, seen, items, events, group) && group != [] && PassLink(pass, rs)(Last(group), i)
    ensures InPass(ord, pass, rs, seen + [i], items, events, group + [i])
  {
    var link := PassLink(pass, rs);
    GroupsSnoc(link, seen, i);
    ExtendJoins(link, Groups(link, seen), i);
  }

  /** Flushing the last group completes the drawing of all of them. */
  lemma FlushLast(ord: BookOrder, pass: Pass, rs: seq<Relation>, gs: seq<seq<nat>>)
    requires gs != []
    ensures var init, g := gs[..|gs| - 1], Last(gs);
            && DrawAll(pass, rs, gs) == DrawGroup(DrawAll(pass, rs, init), g, PassKind(pass, rs, g))
            && EventsOf(ord, pass, rs, gs)
               == EventsOf(ord, pass, rs, init) + [EventOf(ord, rs, PassKind(pass, rs, g), g, PassFlags(pass, rs, g))]
  {
  }

  lemma PassFlush(ord: BookOrder, pass: Pass, rs: seq<Relation>, seen: seq<nat>,
                  items: seq<Relation>, events: seq<Event>, group: seq<nat>, i: nat)
    requires InPass(ord, pass, rs, seen, items, events, group) && group != [] && !PassLink(pass, rs)(Last(group), i)
    ensures InPass(ord, pass, rs, seen + [i],
                   DrawGroup(items, group, PassKind(pass, rs, group)),
                   events + [EventOf(ord, rs, PassKind(pass, rs, group), group, PassFlags(pass, rs, group))], [i])
  {
    var link := PassLink(pass, rs);
    GroupsSnoc(link, seen, i);
    ExtendOpens(link, Groups(link, seen), i);
    FlushLast(ord, pass, rs, Groups(link, seen));
  }

  lemma PassStep(ord: BookOrder, pass: Pass, rs: seq<Relation>, seen: seq<nat>,
                 items: seq<Relation>, events: seq<Event>, group: seq<nat>, i: nat)
    requires InPass(ord, pass, rs, seen, items, events, group)
    ensures group == [] ==> InPass(ord, pass, rs, seen + [i], items, events, [i])
    ensures group != [] && PassLink(pass, rs)(Last(group), i) ==>
      InPass(ord, pass, rs, seen + [i], items, events, group + [i])
    ensures group != [] && !PassLink(pass, rs)(Last(group), i) ==>
      InPass(ord, pass, rs, seen + [i],
             DrawGroup(items, group, PassKind(pass, rs, group)),
             events + [EventOf(ord, rs, PassKind(pass, rs, group), group, PassFlags(pass, rs, group))], [i])
  {
    if group == [] {
      PassOpen(ord, pass, rs, items, events, i);
      assert seen + [i] == [i];
    } else if PassLink(pass, rs)(Last(group), i) {
      PassExtend(ord, pass, rs, seen, items, events, group, i);
    } else {
      PassFlush(ord, pass, rs, seen, items, events, group, i);
    }
  }

  /** One pass over an ordered list of relations: grow a group while the link holds, else flush it. */
  method DrawPass(ord: BookOrder, pass: Pass, table: RelationTable, order: seq<nat>) returns (events: seq<Event>)
    modifies table
    ensures var rs := old(table.items);
            var gs := Groups(PassLink(pass, rs), order);
            table.items == DrawAll(pass, rs, gs) && events == EventsOf(ord, pass, rs, gs)
  {
    var rs := table.items;
    var link := PassLink(pass, rs);
    var group: seq<nat> := [];
    events := [];
    for k := 0 to |order|
      invariant InPass(ord, pass, rs, order[..k], table.items, events, group)
    {
      assert order[..k + 1] == order[..k] + [order[k]];
      PassStep(ord, pass, rs, order[..k], table.items, events, group, order[k]);
      if group != [] {
        if link(Last(group), order[k]) {
          group := group + [order[k]];
          continue;
        }
        var event := Emit(ord, pass, table, rs, group);
        events := events + [event];
      }
      group := [order[k]];
    }
    assert order[..|order|] == order;
    if group != [] {
      var event := Emit(ord, pass, table, rs, group);
      events := events + [event];
    }
  }

  /** Collapse relations into events and write the event types back. */
  method DrawEvents(ord: BookOrder, table: RelationTable) returns (events: seq<Event>)
    modifies table
    ensures events == RelationEvents(ord, old(table.items))
    ensures table.items == Drawn(ord, old(table.items))
  {
    var both := DrawPass(ord, BothPass, table, BothOrder(ord, table.items));
    var lone := DrawPass(ord, LonePass, table, LoneOrder(ord, table.items));
    events := both + lone;
  }

  // ----- conservation -----

  /** What classification guarantees: among typed relations exactly the one-sided kinds miss a side. */
  predicate KindFits(r: Relation) {
    r.kind.Some? ==> (Lone(r) <==> !TwoSided(r))
  }

  lemma ClassifiedKindsFit(ord: BookOrder, rs: seq<Relation>, a: Scheme, b: Scheme, out: seq<Relation>)
    requires Classified(ord, rs, a, b, out)
    ensures forall r :: r in out ==> KindFits(r)
  {
    var first := FirstPassAll(rs, a, b);
    var marked: set<nat> :| Marking(ord, first, marked) && out == Mark(first, marked);
    forall i | 0 <= i < |out| ensures KindFits(out[i]) {
      FirstPassKindFits(rs[i], a, b);
    }
  }

  lemma FirstPassKindFits(r: Relation, a: Scheme, b: Scheme)
    ensures KindFits(FirstPass(r, a, b))
  {
    TypedKind(Counted(r, Present(r.a, a.excluded), Present(r.b, b.excluded)), a.hasVrs && b.hasVrs);
  }

  function CountOf(ix: seq<nat>, i: nat): nat {
    multiset(ix)[i]
  }

  lemma {:induction false} IncreasingOnce(ix: seq<nat>, i: nat)
    requires forall j, k :: 0 <= j < k < |ix| ==> ix[j] < ix[k]
    ensures CountOf(ix, i) == if i in ix then 1 else 0
  {
    if ix != [] {
      var last := |ix| - 1;
      IncreasingOnce(ix[..last], i);
      assert ix == ix[..last] + [ix[last]];
    }
  }

  lemma {:induction false} SortedCount(ix: seq<nat>, key: nat -> Pos, i: nat)
    requires forall j, k :: 0 <= j < k < |ix| ==> ix[j] < ix[k]
    ensures CountOf(StableSort(ix, key), i) == if i in ix then 1 else 0
  {
    SortSorts(ix, key);
    IncreasingOnce(ix, i);
  }

  /** Two lists that differ at most in event types. */
  ghost predicate SameButEvents(rs: seq<Relation>, mid: seq<Relation>) {
    |rs| == |mid| && forall i :: 0 <= i < |rs| ==> mid[i] == rs[i].(etype := mid[i].etype)
  }

  lemma {:induction false} DrawingKeepsRest(pass: Pass, rs: seq<Relation>, gs: seq<seq<nat>>)
    ensures SameButEvents(rs, DrawAll(pass, rs, gs))
  {
    if gs != [] {
      DrawingKeepsRest(pass, rs, gs[..|gs| - 1]);
    }
  }

  lemma LoneCount(ord: BookOrder, rs: seq<Relation>, i: nat)
    requires i < |rs|
    ensures CountOf(LoneOrder(ord, rs), i) == if Lone(rs[i]) then 1 else 0
  {
    var xs, ys := Where(rs, DrawnLoneOnA), Where(rs, DrawnLoneOnB);
    SortedCount(xs, Events.AnchorKey(ord, rs), i);
    SortedCount(ys, Events.AnchorKey(ord, rs), i);
  }

  lemma BothCount(ord: BookOrder, rs: seq<Relation>, i: nat)
    requires i < |rs|
    ensures CountOf(Flatten(BothGroups(ord, rs)), i) == if DrawnTwoSided(rs[i]) then 1 else 0
  {
    GroupsMaximal(LinkBy(rs, SameEvent), BothOrder(ord, rs));
    SortedCount(Where(rs, DrawnTwoSided), KeyA(ord, rs), i);
  }

  lemma LoneGroupsCount(ord: BookOrder, rs: seq<Relation>, i: nat)
    requires i < |rs|
    ensures CountOf(Flatten(LoneGroups(ord, rs)), i) == if Lone(rs[i]) then 1 else 0
  {
    GroupsMaximal(LinkBy(rs, SameLoneEvent), LoneOrder(ord, rs));
    LoneCount(ord, rs, i);
  }

  /**
   * Grouping conserves relations: each typed relation stands in exactly one group of exactly one of
   * the two passes, and untyped relations stand in none.
   */
  lemma EachTypedRelationOnce(ord: BookOrder, rs: seq<Relation>, i: nat)
    requires i < |rs| && forall r :: r in rs ==> KindFits(r)
    ensures CountOf(Flatten(BothGroups(ord, rs)), i) + CountOf(Flatten(LoneGroups(ord, AfterBoth(ord, rs))), i)
            == if rs[i].kind.Some? then 1 else 0
  {
    var mid := AfterBoth(ord, rs);
    DrawingKeepsRest(BothPass, rs, BothGroups(ord, rs));
    assert mid[i] == rs[i].(etype := mid[i].etype);
    BothCount(ord, rs, i);
    LoneGroupsCount(ord, mid, i);
    assert rs[i] in rs && KindFits(rs[i]);
  }

  // ----- exact spans -----

  function FirstsAp(rs: seq<Relation>, g: seq<nat>): seq<Verse> {
    seq(|g|, k requires 0 <= k < |g| => if g[k] < |rs| then Runs.Head(rs[g[k]].ap) else Verse("", 0, 0))
  }

  function FirstsBp(rs: seq<Relation>, g: seq<nat>): seq<Verse> {
    seq(|g|, k requires 0 <= k < |g| => if g[k] < |rs| then Runs.Head(rs[g[k]].bp) else Verse("", 0, 0))
  }

  /** A 1:1 renumbering or title relation. */
  predicate Shift(r: Relation) {
    OneToOne(r) && FamilyOf(r.kind) == Some(ShiftFamily)
  }

  /** What follows a 1:1 shift in its event is one, and both sides move on by one verse. */
  lemma ShiftStep(p: Relation, r: Relation)
    requires Shift(p) && SameEvent(p, r)
    ensures Shift(r) && Runs.NextVerse(p.ap[0], r.ap[0]) && Runs.NextVerse(p.bp[0], r.bp[0])
  {
    var a, a', b, b' := p.ap[0], r.ap[0], p.bp[0], r.bp[0];
    assert OneToOne(r) && FamilyOf(r.kind) == Some(ShiftFamily) && a'.chapter == a.chapter;
    assert Runs.OffsetBetween(a', b') == Runs.OffsetBetween(a, b);
  }

  /** A group that opens with a 1:1 shift holds only such shifts, and both sides walk one chapter. */
  lemma {:induction false} ShiftGroup(rs: seq<Relation>, g: seq<nat>, k: nat)
    requires Chain(LinkBy(rs, SameEvent), g) && g[0] < |rs| && Shift(rs[g[0]]) && k < |g|
    ensures g[k] < |rs| && Shift(rs[g[k]])
    ensures k > 0 ==> Runs.NextVerse(rs[g[k - 1]].ap[0], rs[g[k]].ap[0])
                      && Runs.NextVerse(rs[g[k - 1]].bp[0], rs[g[k]].bp[0])
  {
    if k > 0 {
      ShiftGroup(rs, g, k - 1);
      assert LinkBy(rs, SameEvent)(g[k - 1], g[k]);
      ShiftStep(rs[g[k - 1]], rs[g[k]]);
    }
  }

  lemma {:induction false} CollectSingles(rs: seq<Relation>, g: seq<nat>)
    requires forall i :: i in g ==> i < |rs| && |rs[i].ap| == 1 && |rs[i].bp| == 1
    ensures Collect(rs, g, (r: Relation) => r.ap) == FirstsAp(rs, g)
    ensures Collect(rs, g, (r: Relation) => r.bp) == FirstsBp(rs, g)
  {
    if g != [] {
      var init, i := g[..|g| - 1], g[|g| - 1];
      assert g == init + [i] && i in g;
      assert forall j :: j in init ==> j in g;
      CollectSingles(rs, init);
      assert FirstsAp(rs, g) == FirstsAp(rs, init) + [rs[i].ap[0]];
      assert FirstsBp(rs, g) == FirstsBp(rs, init) + [rs[i].bp[0]];
      assert rs[i].ap == [rs[i].ap[0]] && rs[i].bp == [rs[i].bp[0]];
    }
  }

  /**
   * The event of a group of 1:1 shifts has two single-chapter spans of one length that decode to
   * exactly the group's verse pairs.
   */
  lemma ShiftEventDecodes(ord: BookOrder, rs: seq<Relation>, g: seq<nat>)
    requires g in BothGroups(ord, rs) && g != [] && g[0] < |rs| && Shift(rs[g[0]])
    ensures var e := EventOf(ord, rs, PassKind(BothPass, rs, g), g, PassFlags(BothPass, rs, g));
            && e.a.Span? && e.b.Span? && e.a.chapter1 == e.a.chapter2 && e.b.chapter1 == e.b.chapter2
            && DecodeSpan(e.a) == FirstsAp(rs, g) && DecodeSpan(e.b) == FirstsBp(rs, g)
            && e.n == |g|
  {
    GroupsMaximal(LinkBy(rs, SameEvent), BothOrder(ord, rs));
    assert Chain(LinkBy(rs, SameEvent), g);
    forall k | 0 <= k < |g| ensures g[k] < |rs| && Shift(rs[g[k]]) {
      ShiftGroup(rs, g, k);
    }
    CollectSingles(rs, g);
    var va, vb := FirstsAp(rs, g), FirstsBp(rs, g);
    forall k | 0 < k < |g| ensures Runs.NextVerse(va[k - 1], va[k]) && Runs.NextVerse(vb[k - 1], vb[k]) {
      ShiftGroup(rs, g, k);
    }
    assert Consecutive(va) && Consecutive(vb);
    Runs.ConsecutiveSorted(ord, va);
    Runs.ConsecutiveSorted(ord, vb);
    SpanRoundTrip(va);
    SpanRoundTrip(vb);
  }

  /** Nothing typed, nothing drawn. */
  lemma UntypedDrawsNothing(ord: BookOrder, rs: seq<Relation>)
    requires forall r :: r in rs ==> r.kind == None
    ensures RelationEvents(ord, rs) == [] && Drawn(ord, rs) == rs
  {
    NoneWhere(rs, DrawnTwoSided);
    NoneWhere(rs, DrawnLoneOnA);
    NoneWhere(rs, DrawnLoneOnB);
    assert AfterBoth(ord, rs) == rs;
  }

  lemma {:induction false} NoneWhere(rs: seq<Relation>, p: Relation -> bool)
    requires forall r :: r in rs ==> !p(r)
    ensures Where(rs, p) == []
  {
    if rs != [] {
      NoneWhere(rs[..|rs| - 1], p);
    }
  }
}
