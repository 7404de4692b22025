/** Events that the relations alone do not show: printed bridges without a counterpart, and parts that differ. */
module Bridges {
  import opened Refs
  import opened Sorting
  import opened Schemes
  import opened Classification
  import Events

  /** All kinds of events of a comparison. `onA` tells the side that has the bridge or the book. */
  datatype Entry =
    | Grouped(event: Events.Event)
    | BridgeEntry(onA: bool, a: Span, b: Span, n: nat)
    | SegmentEntry(a: Span, b: Span, segA: seq<string>, segB: seq<string>)
    | BookEntry(onA: bool, a: Span, b: Span, n: nat)

  // ----- which present verses stand across -----

  /** A dictionary of verse sets, with its keys in insertion order. */
  datatype Cross = Cross(keys: seq<Verse>, table: map<Verse, set<Verse>>)

  function Get(c: Cross, v: Verse): set<Verse> {
    if v in c.table then c.table[v] else {}
  }

  function AddTarget(c: Cross, v: Verse, ws: seq<Verse>): Cross {
    Cross(if v in c.table then c.keys else c.keys + [v], c.table[v := Get(c, v) + set w | w in ws])
  }

  function AddTargets(c: Cross, vs: seq<Verse>, ws: seq<Verse>): Cross {
    if vs == [] then c else AddTarget(AddTargets(c, vs[..|vs| - 1], ws), vs[|vs| - 1], ws)
  }

  function NearSide(r: Relation, onA: bool): seq<Verse> {
    if onA then r.ap else r.bp
  }

  /** For every present verse of one side, the present verses of the other side that share a relation with it. */
  function CrossOf(rs: seq<Relation>, onA: bool): Cross {
    if rs == [] then Cross([], map[])
    else
      var r := rs[|rs| - 1];
      AddTargets(CrossOf(rs[..|rs| - 1], onA), NearSide(r, onA), NearSide(r, !onA))
  }

  method AddSide(c: Cross, vs: seq<Verse>, ws: seq<Verse>) returns (c': Cross)
    ensures c' == AddTargets(c, vs, ws)
  {
    c' := c;
    for i := 0 to |vs|
      invariant c' == AddTargets(c, vs[..i], ws)
    {
      assert vs[..i + 1][..i] == vs[..i];
      c' := AddTarget(c', vs[i], ws);
    }
    assert vs[..|vs|] == vs;
  }

  method CrossTables(rs: seq<Relation>) returns (fromA: Cross, fromB: Cross)
    ensures fromA == CrossOf(rs, true) && fromB == CrossOf(rs, false)
  {
    fromA, fromB := Cross([], map[]), Cross([], map[]);
    for i := 0 to |rs|
      invariant fromA == CrossOf(rs[..i], true) && fromB == CrossOf(rs[..i], false)
    {
      assert rs[..i + 1][..i] == rs[..i];
      fromA := AddSide(fromA, rs[i].ap, rs[i].bp);
      fromB := AddSide(fromB, rs[i].bp, rs[i].ap);
    }
    assert rs[..|rs|] == rs;
  }

  lemma {:induction false} TargetsIff(c: Cross, vs: seq<Verse>, ws: seq<Verse>, v: Verse, w: Verse)
    ensures w in Get(AddTargets(c, vs, ws), v) <==> w in Get(c, v) || (v in vs && w in ws)
    ensures v in AddTargets(c, vs, ws).table <==> v in c.table || v in vs
  {
    if vs != [] {
      TargetsIff(c, vs[..|vs| - 1], ws, v, w);
      assert vs == vs[..|vs| - 1] + [vs[|vs| - 1]];
    }
  }

  /** Two verses stand across from each other exactly when some relation holds both. */
  lemma {:induction false} CrossIff(rs: seq<Relation>, onA: bool, v: Verse, w: Verse)
    ensures w in Get(CrossOf(rs, onA), v) <==> exists r :: r in rs && v in NearSide(r, onA) && w in NearSide(r, !onA)
  {
    if rs != [] {
      var init, r := rs[..|rs| - 1], rs[|rs| - 1];
      CrossIff(init, onA, v, w);
      TargetsIff(CrossOf(init, onA), NearSide(r, onA), NearSide(r, !onA), v, w);
      assert rs == init + [r];
      assert forall x :: x in rs <==> x in init || x == r;
    }
  }

  /** Keys are listed once each. */
  ghost predicate Keyed(c: Cross) {
    && (forall v :: v in c.keys <==> v in c.table)
    && (forall i, j :: 0 <= i < j < |c.keys| ==> c.keys[i] != c.keys[j])
  }

  lemma {:induction false} TargetsKeyed(c: Cross, vs: seq<Verse>, ws: seq<Verse>)
    requires Keyed(c)
    ensures Keyed(AddTargets(c, vs, ws))
  {
    if vs != [] {
      TargetsKeyed(c, vs[..|vs| - 1], ws);
    }
  }

  lemma {:induction false} CrossKeyed(rs: seq<Relation>, onA: bool)
    ensures Keyed(CrossOf(rs, onA))
  {
    if rs != [] {
      var r := rs[|rs| - 1];
      CrossKeyed(rs[..|rs| - 1], onA);
      TargetsKeyed(CrossOf(rs[..|rs| - 1], onA), NearSide(r, onA), NearSide(r, !onA));
    }
  }

  // ----- bridges -----

  /** The verses of a bridge, which stand in order. */
  function BridgeVerses(g: Bridge): seq<Verse> {
    seq(if g.last < g.first then 0 else g.last - g.first + 1, i requires 0 <= i => Verse(g.book, g.chapter, g.first + i))
  }

  function BridgeSet(g: Bridge): set<Verse> {
    set v | v in BridgeVerses(g)
  }

  /** What stands across from any of these verses. */
  function Counterpart(c: Cross, vs: seq<Verse>): set<Verse> {
    if vs == [] then {} else Counterpart(c, vs[..|vs| - 1]) + Get(c, vs[|vs| - 1])
  }

  lemma {:induction false} CounterpartIff(c: Cross, vs: seq<Verse>, w: Verse)
    ensures w in Counterpart(c, vs) <==> exists v :: v in vs && w in Get(c, v)
  {
    if vs != [] {
      var init, last := vs[..|vs| - 1], vs[|vs| - 1];
      CounterpartIff(c, init, w);
      assert vs == init + [last];
      assert forall v :: v in vs <==> v in init || v == last;
    }
  }

  /** These verses are printed as one bridge too. */
  predicate Bridged(bridges: seq<Bridge>, vs: set<Verse>) {
    vs != {} && exists g :: g in bridges && BridgeSet(g) == vs
  }

  function VerseKey(ord: BookOrder): Verse -> Pos {
    (v: Verse) => VersePos(ord, v)
  }

  /** A span of these verses in canonical order; verses of equal rank may stand in any order. */
  ghost predicate SpanOfSet(ord: BookOrder, vs: set<Verse>, span: Span) {
    exists listed: seq<Verse> ::
      multiset(listed) == multiset(vs) && SortedBy(listed, VerseKey(ord)) && span == SpanOf(listed)
  }

  /** The event of one bridge. */
  ghost predicate BridgeShown(ord: BookOrder, onA: bool, g: Bridge, across: set<Verse>, e: Entry) {
    && e.BridgeEntry? && e.onA == onA && e.n == |BridgeVerses(g)|
    && (if onA then e.a else e.b) == SpanOf(BridgeVerses(g))
    && SpanOfSet(ord, across, if onA then e.b else e.a)
  }

  /** One event, in order, for every bridge whose counterpart is not a bridge of the other side. */
  ghost predicate BridgesShown(ord: BookOrder, onA: bool, bridges: seq<Bridge>, other: seq<Bridge>, cross: Cross, events: seq<Entry>) {
    if bridges == [] then events == []
    else
      var init, g := bridges[..|bridges| - 1], bridges[|bridges| - 1];
      var across := Counterpart(cross, BridgeVerses(g));
      if Bridged(other, across) then BridgesShown(ord, onA, init, other, cross, events)
      else
        && events != [] && BridgesShown(ord, onA, init, other, cross, events[..|events| - 1])
        && BridgeShown(ord, onA, g, across, events[|events| - 1])
  }

  method ListSet(ord: BookOrder, vs: set<Verse>) returns (listed: seq<Verse>)
    ensures multiset(listed) == multiset(vs) && SortedBy(listed, VerseKey(ord))
  {
    listed := [];
    var rest := vs;
    while rest != {}
      invariant rest <= vs && multiset(listed) == multiset(vs - rest)
      decreases rest
    {
      var v :| v in rest;
      assert vs - (rest - {v}) == (vs - rest) + {v};
      rest := rest - {v};
      listed := listed + [v];
    }
    assert vs - rest == vs;
    SortSorts(listed, VerseKey(ord));
    listed := StableSort(listed, VerseKey(ord));
  }

  method GatherCounterpart(cross: Cross, vs: seq<Verse>) returns (across: set<Verse>)
    ensures across == Counterpart(cross, vs)
  {
    across := {};
    for i := 0 to |vs|
      invariant across == Counterpart(cross, vs[..i])
    {
      assert vs[..i + 1][..i] == vs[..i];
      across := across + Get(cross, vs[i]);
    }
    assert vs[..|vs|] == vs;
  }

  method BridgeEvent(ord: BookOrder, onA: bool, ghost g: Bridge, verses: seq<Verse>, across: set<Verse>) returns (event: Entry)
    requires verses == BridgeVerses(g)
    ensures BridgeShown(ord, onA, g, across, event)
  {
    var paired := ListSet(ord, across);
    assert SpanOfSet(ord, across, SpanOf(paired));
    event := if onA then BridgeEntry(onA, SpanOf(verses), SpanOf(paired), |verses|)
             else BridgeEntry(onA, SpanOf(paired), SpanOf(verses), |verses|);
  }

  lemma BridgeSnoc(ord: BookOrder, onA: bool, bridges: seq<Bridge>, g: Bridge, other: seq<Bridge>, cross: Cross, events: seq<Entry>)
    requires BridgesShown(ord, onA, bridges, other, cross, events)
    ensures Bridged(other, Counterpart(cross, BridgeVerses(g))) ==>
              BridgesShown(ord, onA, bridges + [g], other, cross, events)
  {
    assert (bridges + [g])[..|bridges|] == bridges;
  }

  lemma BridgeShownSnoc(ord: BookOrder, onA: bool, bridges: seq<Bridge>, g: Bridge, other: seq<Bridge>, cross: Cross,
                        events: seq<Entry>, event: Entry)
    requires BridgesShown(ord, onA, bridges, other, cross, events)
    requires !Bridged(other, Counterpart(cross, BridgeVerses(g)))
    requires BridgeShown(ord, onA, g, Counterpart(cross, BridgeVerses(g)), event)
    ensures BridgesShown(ord, onA, bridges + [g], other, cross, events + [event])
  {
    assert (bridges + [g])[..|bridges|] == bridges && (events + [event])[..|events|] == events;
  }

  /** A bridge with a bridge across is passed over, any other one is shown. */
  method AddBridge(ord: BookOrder, onA: bool, ghost before: seq<Bridge>, g: Bridge, other: seq<Bridge>, cross: Cross, events: seq<Entry>)
      returns (events': seq<Entry>)
    requires BridgesShown(ord, onA, before, other, cross, events)
    ensures BridgesShown(ord, onA, before + [g], other, cross, events')
  {
    var verses := BridgeVerses(g);
    var across := GatherCounterpart(cross, verses);
    if across != {} && exists h :: h in other && BridgeSet(h) == across {
      BridgeSnoc(ord, onA, before, g, other, cross, events);
      return events;
    }
    var event := BridgeEvent(ord, onA, g, verses, across);
    BridgeShownSnoc(ord, onA, before, g, other, cross, events, event);
    events' := events + [event];
  }

  method AddBridges(ord: BookOrder, onA: bool, bridges: seq<Bridge>, other: seq<Bridge>, cross: Cross) returns (events: seq<Entry>)
    ensures BridgesShown(ord, onA, bridges, other, cross, events)
  {
    events := [];
    for i := 0 to |bridges|
      invariant BridgesShown(ord, onA, bridges[..i], other, cross, events)
    {
      assert bridges[..i + 1] == bridges[..i] + [bridges[i]];
      events := AddBridge(ord, onA, bridges[..i], bridges[i], other, cross, events);
    }
    assert bridges[..|bridges|] == bridges;
  }

  /** No event exactly when every bridge has a bridge across. */
  lemma {:induction false} NoBridgeShown(ord: BookOrder, onA: bool, bridges: seq<Bridge>, other: seq<Bridge>, cross: Cross, events: seq<Entry>)
    requires BridgesShown(ord, onA, bridges, other, cross, events)
    ensures events == [] <==> forall g :: g in bridges ==> Bridged(other, Counterpart(cross, BridgeVerses(g)))
  {
    if bridges != [] {
      var init, g := bridges[..|bridges| - 1], bridges[|bridges| - 1];
      assert forall h :: h in bridges <==> h in init || h == g;
      if Bridged(other, Counterpart(cross, BridgeVerses(g))) {
        NoBridgeShown(ord, onA, init, other, cross, events);
      }
    }
  }

  // ----- parts -----

  /** The verses across from `v` whose parts differ from its own. */
  function Differing(cross: Cross, v: Verse, a: Scheme, b: Scheme): set<Verse> {
    set w | w in Get(cross, v) && PartsOf(a, v) != PartsOf(b, w)
  }

  function SegmentOf(v: Verse, w: Verse, a: Scheme, b: Scheme): Entry {
    SegmentEntry(SpanOf([v]), SpanOf([w]), PartsOf(a, v), PartsOf(b, w))
  }

  function SegmentsOf(v: Verse, ws: seq<Verse>, a: Scheme, b: Scheme): seq<Entry> {
    seq(|ws|, i requires 0 <= i < |ws| => SegmentOf(v, ws[i], a, b))
  }

  /** The events of one key: every verse across with other parts, once. */
  ghost predicate KeyShown(cross: Cross, v: Verse, a: Scheme, b: Scheme, events: seq<Entry>) {
    exists ws: seq<Verse> :: multiset(ws) == multiset(Differing(cross, v, a, b)) && events == SegmentsOf(v, ws, a, b)
  }

  /** Key by key, in the order the keys were met. */
  ghost predicate SegmentsShown(cross: Cross, keys: seq<Verse>, a: Scheme, b: Scheme, events: seq<Entry>) {
    if keys == [] then events == []
    else exists n: nat ::
      n <= |events| && KeyShown(cross, keys[|keys| - 1], a, b, events[n..])
      && SegmentsShown(cross, keys[..|keys| - 1], a, b, events[..n])
  }

  /** Everything but `rest` is done: the verses drawn are the differing ones, each once, and each is on record. */
  ghost predicate Drawing(differing: set<Verse>, v: Verse, earlier: seq<Verse>,
                          rest: set<Verse>, seen: set<(Verse, Verse)>, drawn: seq<Verse>) {
    && multiset(drawn) == multiset(differing - rest)
    && forall p :: p in seen ==> p.0 in earlier || (p.0 == v && p.1 in drawn)
  }

  lemma DrawStep(differing: set<Verse>, v: Verse, earlier: seq<Verse>,
                 rest: set<Verse>, seen: set<(Verse, Verse)>, drawn: seq<Verse>, w: Verse)
    requires Drawing(differing, v, earlier, rest, seen, drawn) && v !in earlier && w in rest
    ensures (v, w) !in seen
    ensures if w in differing then Drawing(differing, v, earlier, rest - {w}, seen + {(v, w)}, drawn + [w])
            else Drawing(differing, v, earlier, rest - {w}, seen, drawn)
  {
    assert w in drawn <==> w in multiset(drawn);
    if w in differing {
      assert differing - (rest - {w}) == (differing - rest) + {w};
    } else {
      assert differing - (rest - {w}) == differing - rest;
    }
  }

  lemma DrawStart(cross: Cross, v: Verse, a: Scheme, b: Scheme, earlier: seq<Verse>, seen: set<(Verse, Verse)>)
    requires forall p :: p in seen ==> p.0 in earlier
    ensures Drawing(Differing(cross, v, a, b), v, earlier, Get(cross, v), seen, [])
  {
    assert Differing(cross, v, a, b) - Get(cross, v) == {};
  }

  lemma DrawEnd(differing: set<Verse>, v: Verse, earlier: seq<Verse>, seen: set<(Verse, Verse)>, drawn: seq<Verse>)
    requires Drawing(differing, v, earlier, {}, seen, drawn)
    ensures multiset(drawn) == multiset(differing)
    ensures forall p :: p in seen ==> p.0 in earlier || p.0 == v
  {
    assert differing - {} == differing;
  }

  lemma SegmentsSnoc(v: Verse, ws: seq<Verse>, w: Verse, a: Scheme, b: Scheme)
    ensures SegmentsOf(v, ws + [w], a, b) == SegmentsOf(v, ws, a, b) + [SegmentOf(v, w, a, b)]
  {
  }

  lemma DifferingIff(cross: Cross, v: Verse, a: Scheme, b: Scheme, w: Verse)
    ensures w in Differing(cross, v, a, b) <==> w in Get(cross, v) && PartsOf(a, v) != PartsOf(b, w)
  {
  }

  /** One key: the check for pairs drawn before never fires, since keys are distinct and targets form a set. */
  method AddKeySegments(cross: Cross, v: Verse, a: Scheme, b: Scheme, seen: set<(Verse, Verse)>, ghost earlier: seq<Verse>)
      returns (events: seq<Entry>, seen': set<(Verse, Verse)>)
    requires v !in earlier && forall p :: p in seen ==> p.0 in earlier
    ensures KeyShown(cross, v, a, b, events)
    ensures forall p :: p in seen' ==> p.0 in earlier || p.0 == v
  {
    events, seen' := [], seen;
    var targets := Get(cross, v);
    var rest := targets;
    ghost var differing := Differing(cross, v, a, b);
    ghost var drawn: seq<Verse> := [];
    DrawStart(cross, v, a, b, earlier, seen);
    while rest != {}
      invariant rest <= targets && Drawing(differing, v, earlier, rest, seen', drawn)
      invariant events == SegmentsOf(v, drawn, a, b)
      decreases rest
    {
      var w :| w in rest;
      DrawStep(differing, v, earlier, rest, seen', drawn, w);
      DifferingIff(cross, v, a, b, w);
      SegmentsSnoc(v, drawn, w, a, b);
      rest := rest - {w};
      if PartsOf(a, v) != PartsOf(b, w) && (v, w) !in seen' {
        seen' := seen' + {(v, w)};
        events := events + [SegmentOf(v, w, a, b)];
        drawn := drawn + [w];
      }
    }
    DrawEnd(differing, v, earlier, seen', drawn);
  }

  method AddSegments(cross: Cross, a: Scheme, b: Scheme) returns (events: seq<Entry>)
    requires Keyed(cross)
    ensures SegmentsShown(cross, cross.keys, a, b, events)
  {
    events := [];
    var seen: set<(Verse, Verse)> := {};
    for i := 0 to |cross.keys|
      invariant SegmentsShown(cross, cross.keys[..i], a, b, events)
      invariant forall p :: p in seen ==> p.0 in cross.keys[..i]
    {
      assert cross.keys[..i + 1][..i] == cross.keys[..i];
      var more;
      more, seen := AddKeySegments(cross, cross.keys[i], a, b, seen, cross.keys[..i]);
      ghost var n := |events|;
      assert (events + more)[n..] == more && (events + more)[..n] == events;
      events := events + more;
    }
    assert cross.keys[..|cross.keys|] == cross.keys;
  }

  lemma NoKeyShown(cross: Cross, v: Verse, a: Scheme, b: Scheme, events: seq<Entry>)
    requires KeyShown(cross, v, a, b, events)
    ensures events == [] <==> Differing(cross, v, a, b) == {}
  {
    var ws: seq<Verse> :| multiset(ws) == multiset(Differing(cross, v, a, b)) && events == SegmentsOf(v, ws, a, b);
    assert |events| == |ws| == |multiset(ws)| == |Differing(cross, v, a, b)|;
  }

  lemma {:induction false} NoSegmentShown(cross: Cross, keys: seq<Verse>, a: Scheme, b: Scheme, events: seq<Entry>)
    requires SegmentsShown(cross, keys, a, b, events)
    ensures events == [] <==> forall v :: v in keys ==> Differing(cross, v, a, b) == {}
  {
    if keys != [] {
      var init, last := keys[..|keys| - 1], keys[|keys| - 1];
      var n: nat :| n <= |events| && KeyShown(cross, last, a, b, events[n..]) && SegmentsShown(cross, init, a, b, events[..n]);
      NoSegmentShown(cross, init, a, b, events[..n]);
      NoKeyShown(cross, last, a, b, events[n..]);
      assert |events| == |events[..n]| + |events[n..]|;
      assert forall v :: v in keys <==> v in init || v == last;
    }
  }
}
