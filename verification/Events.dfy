/** Collapsing typed relations into events: the both-sides pass and the one-sided pass. */
module Events {
  import opened Refs
  import opened Sorting
  import opened Options
  import opened Schemes
  import opened Classification
  import opened Grouping
  import Runs

  datatype Family = ShiftFamily | MoveFamily | InversionFamily

  datatype EventFlag = Approximate | DataWarning | VrsSupplement | MissingInA | MissingInB

  datatype Event = Event(kind: Kind, a: Span, o: Span, b: Span, n: nat, card: (Count, Count), flags: set<EventFlag>)

  function FamilyOf(k: Option<Kind>): Option<Family> {
    match k
    case Some(Renumber) => Some(ShiftFamily)
    case Some(Verse0Title) => Some(ShiftFamily)
    case Some(ChapterMove) => Some(MoveFamily)
    case Some(CrossBook) => Some(MoveFamily)
    case Some(OrderInversion) => Some(InversionFamily)
    case _ => None
  }

  /** `w` is the next verse after `v`: in its chapter, or verse 0 or 1 of the next one. */
  predicate AdjacentVerses(v: Verse, w: Verse) {
    && v.book == w.book
    && ((v.chapter == w.chapter && w.verse == v.verse + 1) || (w.chapter == v.chapter + 1 && w.verse <= 1))
  }

  predicate OneToOne(r: Relation) {
    |r.ap| == 1 && |r.bp| == 1 && FamilyOf(r.kind).Some?
  }

  /** A two-sided relation that is drawn in the event of the one before it. */
  predicate SameEvent(p: Relation, r: Relation) {
    if p.ap == [] || p.bp == [] || r.ap == [] || r.bp == [] then false
    else if OneToOne(r) && OneToOne(p) then
      && FamilyOf(r.kind) == FamilyOf(p.kind)
      && Runs.OffsetBetween(r.ap[0], r.bp[0]) == Runs.OffsetBetween(p.ap[0], p.bp[0])
      && AdjacentVerses(p.ap[0], r.ap[0])
      && (p.ap[0].chapter == r.ap[0].chapter || FamilyOf(r.kind) != Some(ShiftFamily))
    else
      && !OneToOne(r) && !OneToOne(p)
      && r.kind == p.kind && r.card == p.card && r.flags == p.flags && r.warn == p.warn
      && AdjacentVerses(p.ap[|p.ap| - 1], r.ap[0])
  }

  // ----- one-sided relations -----

  predicate AnchoredOnA(r: Relation) {
    r.a != []
  }

  function AnchorVerses(r: Relation): seq<Verse> {
    if AnchoredOnA(r) then r.a else r.b
  }

  function MissingSide(r: Relation): EventFlag {
    if r.ap == [] then MissingInA else MissingInB
  }

  predicate SameLoneEvent(p: Relation, r: Relation) {
    var vs, ws := AnchorVerses(p), AnchorVerses(r);
    && p.kind == r.kind && AnchoredOnA(p) == AnchoredOnA(r) && MissingSide(p) == MissingSide(r)
    && vs != [] && ws != [] && AdjacentVerses(vs[|vs| - 1], ws[0])
  }

  // ----- grouping by index -----

  predicate Lone(r: Relation) {
    r.kind == Some(Excluded) || r.kind == Some(OneSided)
  }

  /** Typed relations with verses present on both sides. */
  predicate DrawnTwoSided(r: Relation) {
    r.kind.Some? && TwoSided(r)
  }

  predicate DrawnLoneOnA(r: Relation) {
    Lone(r) && AnchoredOnA(r)
  }

  predicate DrawnLoneOnB(r: Relation) {
    Lone(r) && !AnchoredOnA(r)
  }

  function Where(rs: seq<Relation>, p: Relation -> bool): (ix: seq<nat>)
    ensures forall i :: i in ix <==> 0 <= i < |rs| && p(rs[i])
    ensures forall k :: 0 <= k < |ix| ==> ix[k] < |rs|
    ensures forall j, k :: 0 <= j < k < |ix| ==> ix[j] < ix[k]
  {
    if rs == [] then []
    else
      var last := |rs| - 1;
      Where(rs[..last], p) + (if p(rs[last]) then [last] else [])
  }

  function AnchorKey(ord: BookOrder, rs: seq<Relation>): nat -> Pos {
    (i: nat) =>
      if i < |rs| && AnchorVerses(rs[i]) != [] then VersePos(ord, AnchorVerses(rs[i])[0]) else Pos(0, 0, 0)
  }

  /** Two-sided relations in A order. */
  function BothOrder(ord: BookOrder, rs: seq<Relation>): seq<nat> {
    StableSort(Where(rs, DrawnTwoSided), KeyA(ord, rs))
  }

  /** One-sided relations, those anchored on A first, each part in the order of its anchor. */
  function LoneOrder(ord: BookOrder, rs: seq<Relation>): seq<nat> {
    StableSort(Where(rs, DrawnLoneOnA), AnchorKey(ord, rs))
    + StableSort(Where(rs, DrawnLoneOnB), AnchorKey(ord, rs))
  }

  function LinkBy(rs: seq<Relation>, same: (Relation, Relation) -> bool): (nat, nat) -> bool {
    (i: nat, j: nat) => i < |rs| && j < |rs| && same(rs[i], rs[j])
  }

  function BothGroups(ord: BookOrder, rs: seq<Relation>): seq<seq<nat>> {
    Groups(LinkBy(rs, SameEvent), BothOrder(ord, rs))
  }

  function LoneGroups(ord: BookOrder, rs: seq<Relation>): seq<seq<nat>> {
    Groups(LinkBy(rs, SameLoneEvent), LoneOrder(ord, rs))
  }

  // ----- emitting one group -----

  function Kinds(rs: seq<Relation>, g: seq<nat>): set<Kind> {
    set i | i in g && i < |rs| && rs[i].kind.Some? :: rs[i].kind.value
  }

  /** The most specific type of a two-sided group. */
  function GroupKind(rs: seq<Relation>, g: seq<nat>): Kind {
    var kinds := Kinds(rs, g);
    if OrderInversion in kinds then OrderInversion
    else if CrossBook in kinds then CrossBook
    else if ChapterMove in kinds then ChapterMove
    else if Verse0Title in kinds then Verse0Title
    else FirstKind(rs, g)
  }

  function FirstKind(rs: seq<Relation>, g: seq<nat>): Kind {
    if g != [] && g[0] < |rs| && rs[g[0]].kind.Some? then rs[g[0]].kind.value else Renumber
  }

  function Collect(rs: seq<Relation>, g: seq<nat>, pick: Relation -> seq<Verse>): seq<Verse> {
    if g == [] then []
    else
      var i := g[|g| - 1];
      Collect(rs, g[..|g| - 1], pick) + (if i < |rs| then pick(rs[i]) else [])
  }

  function OrElse(vs: seq<Verse>, ws: seq<Verse>): seq<Verse> {
    if vs != [] then vs else ws
  }

  function GroupFlags(rs: seq<Relation>, g: seq<nat>): set<EventFlag> {
    (if exists i :: i in g && i < |rs| && ApproxFlag in rs[i].flags then {Approximate} else {})
    + (if exists i :: i in g && i < |rs| && rs[i].warn then {DataWarning} else {})
    + (if exists i :: i in g && i < |rs| && VrsFlag in rs[i].flags then {VrsSupplement} else {})
  }

  function EventOf(ord: BookOrder, rs: seq<Relation>, kind: Kind, g: seq<nat>, extra: set<EventFlag>): Event {
    var key := (v: Verse) => VersePos(ord, v);
    var a := OrElse(Collect(rs, g, (r: Relation) => r.ap), Collect(rs, g, (r: Relation) => r.a));
    var b := OrElse(Collect(rs, g, (r: Relation) => r.bp), Collect(rs, g, (r: Relation) => r.b));
    var o := Collect(rs, g, (r: Relation) => r.o);
    Event(kind, SpanOf(StableSort(a, key)), SpanOf(StableSort(o, key)), SpanOf(StableSort(b, key)),
          if |a| > |b| then |a| else |b|,
          if g != [] && g[0] < |rs| then rs[g[0]].card else (Zero, Zero),
          extra + GroupFlags(rs, g))
  }

  /** Write the event type onto the relations of the group. */
  function DrawGroup(rs: seq<Relation>, g: seq<nat>, kind: Kind): seq<Relation> {
    seq(|rs|, i requires 0 <= i < |rs| => if i in g then rs[i].(etype := Some(kind)) else rs[i])
  }

  /** What one pass has to say about a group: its type and the flags it adds. */
  datatype Pass = BothPass | LonePass

  function PassKind(pass: Pass, rs: seq<Relation>, g: seq<nat>): Kind {
    if pass.BothPass? then GroupKind(rs, g) else FirstKind(rs, g)
  }

  function PassFlags(pass: Pass, rs: seq<Relation>, g: seq<nat>): set<EventFlag> {
    if pass.LonePass? && g != [] && g[0] < |rs| then {MissingSide(rs[g[0]])} else {}
  }

  function DrawAll(pass: Pass, rs: seq<Relation>, gs: seq<seq<nat>>): seq<Relation> {
    if gs == [] then rs
    else DrawGroup(DrawAll(pass, rs, gs[..|gs| - 1]), gs[|gs| - 1], PassKind(pass, rs, gs[|gs| - 1]))
  }

  function EventsOf(ord: BookOrder, pass: Pass, rs: seq<Relation>, gs: seq<seq<nat>>): seq<Event> {
    if gs == [] then []
    else
      var g := gs[|gs| - 1];
      EventsOf(ord, pass, rs, gs[..|gs| - 1]) + [EventOf(ord, rs, PassKind(pass, rs, g), g, PassFlags(pass, rs, g))]
  }

  function PassLink(pass: Pass, rs: seq<Relation>): (nat, nat) -> bool {
    if pass.BothPass? then LinkBy(rs, SameEvent) else LinkBy(rs, SameLoneEvent)
  }

  /** The list after the both-sides pass: its relations carry their event types. */
  function AfterBoth(ord: BookOrder, rs: seq<Relation>): seq<Relation> {
    DrawAll(BothPass, rs, BothGroups(ord, rs))
  }

  /** All events of a relation list, before bridges, segment letters and book folding. */
  function RelationEvents(ord: BookOrder, rs: seq<Relation>): seq<Event> {
    var mid := AfterBoth(ord, rs);
    EventsOf(ord, BothPass, rs, BothGroups(ord, rs)) + EventsOf(ord, LonePass, mid, LoneGroups(ord, mid))
  }

  /** The relation list afterwards: every drawn relation carries its event's type. */
  function Drawn(ord: BookOrder, rs: seq<Relation>): seq<Relation> {
    var mid := AfterBoth(ord, rs);
    DrawAll(LonePass, mid, LoneGroups(ord, mid))
  }
}
