/** Implied splits of combined milestones, added to an ingredient before derivation. */
module Milestones {
  import opened Options
  import opened Coordinates
  import opened References
  import opened RelationAlgebra
  import opened Derivation

  /** A stored span; a combined milestone carries the printed range it covers. */
  datatype Span = Span(book: string, chapter: nat, verse: nat, range: Option<string>)

  /** The base translation: an anchor accepts every range, any other needs each verse stored whole. */
  datatype BaseText = BaseText(isAnchor: bool, verses: set<VerseId>)

  function AnchorOf(span: Span): string {
    FormatBcv(VerseId(span.book, span.chapter, span.verse, None))
  }

  function Probe(r: RefRange): VerseId {
    Whole(r, r.first)
  }

  /** The narrowest mapped pair that covers the probe, the first one on ties. */
  function CoveringZip(mapped: seq<(string, string)>, probe: VerseId): Option<(RefRange, RefRange)> {
    if mapped == [] then None
    else
      var best := CoveringZip(mapped[..|mapped| - 1], probe);
      var (key, value) := mapped[|mapped| - 1];
      match (ParseRef(key), ParseRef(value))
      case (Some(cover), Some(base)) =>
        if Covers(cover, probe) && (best.None? || cover.more < best.value.0.more) then Some((cover, base)) else best
      case _ => best
  }

  function FormatRange(book: string, chapter: nat, first: nat, last: nat): string {
    book + " " + Digits(chapter) + ":" + Digits(first) + "-" + Digits(last)
  }

  /** Image of one milestone verse under the zip of a covering pair, clamped to the base range. */
  function Image(verse: nat, cover: RefRange, base: RefRange): nat
    requires cover.first <= verse
  {
    base.first + (if verse - cover.first < base.Length() then verse - cover.first else base.more)
  }

  /** The images of the milestone's verses, in order. */
  function Images(m: RefRange, cover: RefRange, base: RefRange): seq<nat>
    requires cover.first <= m.first
  {
    seq<nat>(m.Length(), i requires 0 <= i => Image(m.first + i, cover, base))
  }

  function Least(ns: seq<nat>): nat
    requires ns != []
  {
    if |ns| == 1 then ns[0] else var rest := Least(ns[..|ns| - 1]); if ns[|ns| - 1] < rest then ns[|ns| - 1] else rest
  }

  function Greatest(ns: seq<nat>): nat
    requires ns != []
  {
    if |ns| == 1 then ns[0] else var rest := Greatest(ns[..|ns| - 1]); if ns[|ns| - 1] > rest then ns[|ns| - 1] else rest
  }

  /** The milestone's image in the base range; none when it leaves the cover. */
  function ProjectMilestone(m: RefRange, cover: RefRange, base: RefRange): Option<string> {
    if exists v :: v in Expand(m) && !Covers(cover, v) then None
    else
      ExpandMembers(m, Whole(m, m.first));
      var images := Images(m, cover, base);
      if |images| == 1 then Some(FormatBcv(VerseId(base.book, base.chapter, images[0], None)))
      else Some(FormatRange(base.book, base.chapter, Least(images), Greatest(images)))
  }

  lemma {:induction false} EndsOfSorted(ns: seq<nat>)
    requires ns != [] && forall i, j :: 0 <= i < j < |ns| ==> ns[i] <= ns[j]
    ensures Least(ns) == ns[0] && Greatest(ns) == ns[|ns| - 1]
  {
    if |ns| > 1 {
      EndsOfSorted(ns[..|ns| - 1]);
    }
  }

  /** Zipping keeps order: the image of a covered milestone runs from the image of its first verse to that of its last, inside the base. */
  lemma ProjectedEnds(m: RefRange, cover: RefRange, base: RefRange)
    requires forall v :: v in Expand(m) ==> Covers(cover, v)
    ensures cover.first <= m.first && m.Last() <= cover.Last()
    ensures var images := Images(m, cover, base);
            && Least(images) == Image(m.first, cover, base) && Greatest(images) == Image(m.Last(), cover, base)
            && base.first <= Least(images) <= Greatest(images) <= base.Last()
  {
    ExpandMembers(m, Whole(m, m.first));
    ExpandMembers(m, Whole(m, m.Last()));
    var images := Images(m, cover, base);
    forall i, j | 0 <= i < j < |images| ensures images[i] <= images[j] {
      assert images[i] == Image(m.first + i, cover, base) && images[j] == Image(m.first + j, cover, base);
    }
    EndsOfSorted(images);
  }

  function ProjectedBase(ing: Ingredient, anchor: string, m: RefRange): Option<string> {
    match ParseRef(anchor)
    case None => None
    case Some(r) =>
      match CoveringZip(ing.mapped, Probe(r))
      case None => None
      case Some((cover, base)) =>
        match ProjectMilestone(m, cover, base)
        case None => None
        case Some(p) => if ParseRef(p).Some? && ParseRef(p).value.more > 0 then Some(p) else None
  }

  /** Some mapped source range covers the anchor; an unparseable anchor counts as covered. */
  predicate HasCoveringSource(ing: Ingredient, anchor: string) {
    ParseRef(anchor).Some? ==>
      exists i :: 0 <= i < |ing.mapped| && ParseRef(ing.mapped[i].0).Some?
                  && Covers(ParseRef(ing.mapped[i].0).value, Probe(ParseRef(anchor).value))
  }

  predicate HasDiscreteSpans(base: BaseText, m: RefRange) {
    base.isAnchor || forall v :: v in Expand(m) ==> v in base.verses
  }

  /** Mappings and splits as they grow. */
  datatype Growth = Growth(mapped: seq<(string, string)>, split: seq<string>)

  predicate Blocked(ing: Ingredient, g: Growth, anchor: string, range: string) {
    || HasKey(g.mapped, anchor) || anchor in g.split || anchor in ing.merged
    || range in ing.merged || HasKey(g.mapped, range)
  }

  /** The base the span's anchor gets, or none when the span adds nothing. Covers are looked up in the original mappings. */
  function Addition(ing: Ingredient, base: BaseText, g: Growth, span: Span): Option<string> {
    if span.range.None? then None
    else
      var anchor, range := AnchorOf(span), span.range.value;
      if Blocked(ing, g, anchor, range) then None
      else
        match ParseRef(range)
        case None => None
        case Some(m) => if m.more == 0 then None else BaseFor(ing, base, anchor, range, m)
  }

  /** The image of the milestone under an existing mapping, else the milestone itself over discrete base verses. */
  function BaseFor(ing: Ingredient, base: BaseText, anchor: string, range: string, m: RefRange): Option<string> {
    if ProjectedBase(ing, anchor, m).Some? then ProjectedBase(ing, anchor, m)
    else if HasCoveringSource(ing, anchor) then None
    else if !HasDiscreteSpans(base, m) then None
    else Some(range)
  }

  function Grow(ing: Ingredient, base: BaseText, g: Growth, span: Span): Growth {
    var added := Addition(ing, base, g, span);
    if added.None? then g else Growth(g.mapped + [(AnchorOf(span), added.value)], g.split + [AnchorOf(span)])
  }

  function GrowAll(ing: Ingredient, base: BaseText, spans: seq<Span>): Growth {
    if spans == [] then Growth(ing.mapped, ing.split)
    else Grow(ing, base, GrowAll(ing, base, spans[..|spans| - 1]), spans[|spans| - 1])
  }

  function Applied(ing: Ingredient, base: BaseText, spans: seq<Span>): Ingredient {
    var g := GrowAll(ing, base, spans);
    ing.(mapped := g.mapped, split := g.split)
  }

  method AddSpan(ing: Ingredient, base: BaseText, g: Growth, span: Span) returns (g': Growth)
    ensures g' == Grow(ing, base, g, span)
  {
    if span.range == None {
      return g;
    }
    var anchor, range := AnchorOf(span), span.range.value;
    if Blocked(ing, g, anchor, range) {
      return g;
    }
    var m := ParseRef(range);
    if m == None || m.value.more == 0 {
      return g;
    }
    var added := FindBase(ing, base, anchor, range, m.value);
    if added == None {
      return g;
    }
    g' := Growth(g.mapped + [(anchor, added.value)], g.split + [anchor]);
  }

  method FindBase(ing: Ingredient, base: BaseText, anchor: string, range: string, m: RefRange) returns (added: Option<string>)
    ensures added == BaseFor(ing, base, anchor, range, m)
  {
    added := ProjectedBase(ing, anchor, m);
    if added != None {
      return;
    }
    if HasCoveringSource(ing, anchor) || !HasDiscreteSpans(base, m) {
      return None;
    }
    added := Some(range);
  }

  method ApplyCombinedMilestoneSplits(ing: Ingredient, base: BaseText, spans: seq<Span>) returns (updated: Ingredient)
    ensures updated == Applied(ing, base, spans)
  {
    var g := Growth(ing.mapped, ing.split);
    for i := 0 to |spans|
      invariant g == GrowAll(ing, base, spans[..i])
    {
      assert spans[..i + 1][..i] == spans[..i];
      g := AddSpan(ing, base, g, spans[i]);
    }
    assert spans[..|spans|] == spans;
    if g == Growth(ing.mapped, ing.split) {
      return ing;
    }
    updated := ing.(mapped := g.mapped, split := g.split);
  }

  // ----- what is added -----

  /** The growth only appends: each new entry is an anchor that parses, was free before, and is split once. */
  ghost predicate Grown(ing: Ingredient, g: Growth, added: seq<string>) {
    && KeyedBy(ing.mapped, g.mapped, added) && g.split == ing.split + added
    && AllFresh(ing, added) && Distinct(added)
  }

  ghost predicate AllFresh(ing: Ingredient, anchors: seq<string>) {
    forall k :: 0 <= k < |anchors| ==> Fresh(ing, anchors[k])
  }

  ghost predicate Distinct(anchors: seq<string>) {
    forall j, k :: 0 <= j < k < |anchors| ==> anchors[j] != anchors[k]
  }

  lemma FreshSnoc(ing: Ingredient, anchors: seq<string>, anchor: string)
    requires AllFresh(ing, anchors) && Fresh(ing, anchor)
    ensures AllFresh(ing, anchors + [anchor])
  {
  }

  lemma DistinctSnoc(anchors: seq<string>, anchor: string)
    requires Distinct(anchors) && anchor !in anchors
    ensures Distinct(anchors + [anchor])
  {
  }

  /** A printed single verse that no mapping, split or merge of the ingredient names. */
  ghost predicate Fresh(ing: Ingredient, anchor: string) {
    && ParseRef(anchor).Some? && (exists v: VerseId :: anchor == FormatBcv(v))
    && !HasKey(ing.mapped, anchor) && anchor !in ing.split && anchor !in ing.merged
  }

  lemma AddedParses(ing: Ingredient, base: BaseText, g: Growth, span: Span)
    requires Addition(ing, base, g, span).Some?
    ensures ParseRef(AnchorOf(span)).Some?
    ensures !Blocked(ing, g, AnchorOf(span), span.range.value)
  {
  }

  lemma {:induction false} GrowsBy(ing: Ingredient, base: BaseText, spans: seq<Span>) returns (added: seq<string>)
    ensures Grown(ing, GrowAll(ing, base, spans), added)
  {
    added := [];
    if spans != [] {
      var init, span := spans[..|spans| - 1], spans[|spans| - 1];
      var g := GrowAll(ing, base, init);
      added := GrowsBy(ing, base, init);
      if Addition(ing, base, g, span).Some? {
        AddedParses(ing, base, g, span);
        GrowOnce(ing, base, g, span, added);
        added := added + [AnchorOf(span)];
      }
    }
  }

  lemma NoKeyBefore(xs: seq<(string, string)>, ys: seq<(string, string)>, key: string)
    requires xs <= ys && !HasKey(ys, key)
    ensures !HasKey(xs, key)
  {
    assert forall i :: 0 <= i < |xs| ==> xs[i] == ys[i];
  }

  lemma GrownSnoc(ing: Ingredient, g: Growth, added: seq<string>, anchor: string, value: string)
    requires Grown(ing, g, added) && Fresh(ing, anchor) && !HasKey(g.mapped, anchor)
    ensures Grown(ing, Growth(g.mapped + [(anchor, value)], g.split + [anchor]), added + [anchor])
  {
    assert g.split + [anchor] == ing.split + (added + [anchor]);
    NotAmongKeys(ing.mapped, g.mapped, added, anchor);
    KeysSnoc(ing.mapped, g.mapped, added, anchor, value);
    FreshSnoc(ing, added, anchor);
    DistinctSnoc(added, anchor);
  }

  lemma NotAmongKeys(first: seq<(string, string)>, mapped: seq<(string, string)>, anchors: seq<string>, anchor: string)
    requires KeyedBy(first, mapped, anchors) && !HasKey(mapped, anchor)
    ensures anchor !in anchors
  {
    forall k | 0 <= k < |anchors| ensures anchors[k] != anchor {
      assert mapped[|first| + k].0 == anchors[k];
    }
  }

  /** The entries past the first ones are keyed by the anchors, in order. */
  ghost predicate KeyedBy(first: seq<(string, string)>, mapped: seq<(string, string)>, anchors: seq<string>) {
    && |mapped| == |first| + |anchors| && first <= mapped
    && forall k :: 0 <= k < |anchors| ==> mapped[|first| + k].0 == anchors[k]
  }

  lemma KeysSnoc(first: seq<(string, string)>, mapped: seq<(string, string)>, anchors: seq<string>, anchor: string, value: string)
    requires KeyedBy(first, mapped, anchors)
    ensures KeyedBy(first, mapped + [(anchor, value)], anchors + [anchor])
  {
    var mapped', anchors' := mapped + [(anchor, value)], anchors + [anchor];
    forall k | 0 <= k < |anchors'| ensures mapped'[|first| + k].0 == anchors'[k] {
      assert k < |anchors| ==> mapped'[|first| + k] == mapped[|first| + k];
    }
  }

  lemma GrowOnce(ing: Ingredient, base: BaseText, g: Growth, span: Span, added: seq<string>)
    requires Grown(ing, g, added) && Addition(ing, base, g, span).Some?
    requires ParseRef(AnchorOf(span)).Some? && !Blocked(ing, g, AnchorOf(span), span.range.value)
    ensures Grown(ing, Grow(ing, base, g, span), added + [AnchorOf(span)])
  {
    var anchor := AnchorOf(span);
    NoKeyBefore(ing.mapped, g.mapped, anchor);
    assert Fresh(ing, anchor);
    GrownSnoc(ing, g, added, anchor, Addition(ing, base, g, span).value);
  }

  /** Applying the milestones overwrites no mapping: every key keeps its base. */
  lemma MappingsKept(ing: Ingredient, base: BaseText, spans: seq<Span>, key: string)
    requires HasKey(ing.mapped, key)
    ensures BaseOf(Applied(ing, base, spans).mapped, key) == BaseOf(ing.mapped, key)
  {
    var added := GrowsBy(ing, base, spans);
    var g := GrowAll(ing, base, spans);
    assert g.mapped == ing.mapped + g.mapped[|ing.mapped|..];
    BaseOfPrefix(ing.mapped, g.mapped[|ing.mapped|..], key);
  }

  lemma {:induction false} BaseOfPrefix(xs: seq<(string, string)>, ys: seq<(string, string)>, key: string)
    requires HasKey(xs, key)
    ensures BaseOf(xs + ys, key) == BaseOf(xs, key)
  {
    if xs[0].0 != key {
      var i :| 0 <= i < |xs| && xs[i].0 == key;
      assert xs[1..][i - 1].0 == key;
      BaseOfPrefix(xs[1..], ys, key);
      assert (xs + ys)[1..] == xs[1..] + ys;
    }
  }

  // ----- twice is once -----

  lemma PrintedForm(v: VerseId)
    ensures FormatBcv(v) == (v.book + " " + Digits(v.chapter)) + [':'] + Digits(v.verse)
    ensures 0 <= LastMark(FormatBcv(v)) < |FormatBcv(v)| && FormatBcv(v)[LastMark(FormatBcv(v))] == ':'
  {
    LastMarkOf(v.book + " " + Digits(v.chapter), ':', Digits(v.verse));
  }

  lemma SingleForm(f: Fields)
    requires Grammatical(f) && f.end == ""
    ensures Spell(f) == (f.book + " " + f.chapter) + [':'] + f.start
  {
  }

  lemma RangeForm(f: Fields)
    requires Grammatical(f) && f.end != ""
    ensures Spell(f) == (f.book + " " + f.chapter + ":" + f.start) + ['-'] + f.end
    ensures 0 <= LastMark(Spell(f)) < |Spell(f)| && Spell(f)[LastMark(Spell(f))] == '-'
  {
    LastMarkOf(f.book + " " + f.chapter + ":" + f.start, '-', f.end);
  }

  /** A printed single verse is read as a single verse of the same book. */
  lemma PrintedFields(v: VerseId, f: Fields)
    requires Grammatical(f) && Spell(f) == FormatBcv(v)
    ensures f.book == v.book
  {
    PrintedForm(v);
    if f.end == "" {
      SingleForm(f);
      TailsAgree(f.book + " " + f.chapter, f.start, v.book + " " + Digits(v.chapter), Digits(v.verse), ':');
      TailsAgree(f.book, f.chapter, v.book, Digits(v.chapter), ' ');
    } else {
      RangeForm(f);
    }
  }

  /** A printed verse parses only under a book code. */
  lemma PrintedBook(v: VerseId)
    requires ParseRef(FormatBcv(v)).Some?
    ensures BookCode(v.book)
  {
    MatchSound(FormatBcv(v));
    PrintedFields(v, Match(FormatBcv(v)).value);
  }

  lemma SameSpot(v: VerseId, w: VerseId)
    requires Covers(RefRange(v.book, v.chapter, v.verse, 0), Whole(RefRange(w.book, w.chapter, w.verse, 0), w.verse))
    ensures FormatBcv(v) == FormatBcv(w)
  {
  }

  /** Of two printed single verses one covers the other only when they are the same text. */
  lemma AnchorsCoverThemselves(v: VerseId, w: VerseId)
    requires ParseRef(FormatBcv(v)).Some? && ParseRef(FormatBcv(w)).Some?
    requires Covers(ParseRef(FormatBcv(v)).value, Probe(ParseRef(FormatBcv(w)).value))
    ensures FormatBcv(v) == FormatBcv(w)
  {
    PrintedBook(v);
    PrintedBook(w);
    PrintParse(v);
    PrintParse(w);
    SameSpot(v, w);
  }

  /** Entries past the original ones are keyed by fresh anchors. */
  lemma AddedKeyFresh(ing: Ingredient, g: Growth, added: seq<string>, k: nat)
    requires Grown(ing, g, added) && |ing.mapped| <= k < |g.mapped|
    ensures Fresh(ing, g.mapped[k].0) && HasKey(g.mapped, g.mapped[k].0)
  {
    assert g.mapped[k].0 == added[k - |ing.mapped|];
  }

  /** A printed verse covers no other printed verse. */
  lemma OtherAnchorMisses(key: string, anchor: string)
    requires ParseRef(key).Some? && (exists v: VerseId :: key == FormatBcv(v))
    requires ParseRef(anchor).Some? && (exists w: VerseId :: anchor == FormatBcv(w))
    requires key != anchor
    ensures !Covers(ParseRef(key).value, Probe(ParseRef(anchor).value))
  {
    var v: VerseId :| key == FormatBcv(v);
    var w: VerseId :| anchor == FormatBcv(w);
    if Covers(ParseRef(key).value, Probe(ParseRef(anchor).value)) {
      AnchorsCoverThemselves(v, w);
    }
  }

  lemma AddedNeverCovers(ing: Ingredient, g: Growth, added: seq<string>, anchor: string, k: nat)
    requires Grown(ing, g, added) && |ing.mapped| <= k < |g.mapped|
    requires !HasKey(g.mapped, anchor) && ParseRef(anchor).Some? && exists w: VerseId :: anchor == FormatBcv(w)
    ensures ParseRef(g.mapped[k].0).Some? && !Covers(ParseRef(g.mapped[k].0).value, Probe(ParseRef(anchor).value))
  {
    AddedKeyFresh(ing, g, added, k);
    OtherAnchorMisses(g.mapped[k].0, anchor);
  }

  /** Entries that do not cover the probe change no lookup. */
  lemma {:induction false} CoveringZipPrefix(xs: seq<(string, string)>, n: nat, probe: VerseId)
    requires n <= |xs|
    requires forall k :: n <= k < |xs| ==> ParseRef(xs[k].0).Some? && !Covers(ParseRef(xs[k].0).value, probe)
    ensures CoveringZip(xs, probe) == CoveringZip(xs[..n], probe)
  {
    if n < |xs| {
      var init := xs[..|xs| - 1];
      assert init[..n] == xs[..n];
      CoveringZipPrefix(init, n, probe);
    } else {
      assert xs[..n] == xs;
    }
  }

  lemma AddedAllMiss(ing: Ingredient, base: BaseText, spans: seq<Span>, span: Span)
    requires var done := Applied(ing, base, spans); !HasKey(done.mapped, AnchorOf(span))
    requires ParseRef(AnchorOf(span)).Some?
    ensures var done, probe := Applied(ing, base, spans), Probe(ParseRef(AnchorOf(span)).value);
            && ing.mapped <= done.mapped
            && forall k :: |ing.mapped| <= k < |done.mapped| ==>
                 ParseRef(done.mapped[k].0).Some? && !Covers(ParseRef(done.mapped[k].0).value, probe)
  {
    var added := GrowsBy(ing, base, spans);
    var g, anchor := GrowAll(ing, base, spans), AnchorOf(span);
    var probe := Probe(ParseRef(anchor).value);
    forall k | |ing.mapped| <= k < |g.mapped|
      ensures ParseRef(g.mapped[k].0).Some? && !Covers(ParseRef(g.mapped[k].0).value, probe)
    {
      AddedNeverCovers(ing, g, added, anchor, k);
    }
  }

  lemma LookupsKept(ing: Ingredient, base: BaseText, spans: seq<Span>, span: Span, m: RefRange)
    requires var done := Applied(ing, base, spans); !HasKey(done.mapped, AnchorOf(span))
    ensures var done := Applied(ing, base, spans);
            && ProjectedBase(done, AnchorOf(span), m) == ProjectedBase(ing, AnchorOf(span), m)
            && (HasCoveringSource(done, AnchorOf(span)) <==> HasCoveringSource(ing, AnchorOf(span)))
  {
    var done, anchor := Applied(ing, base, spans), AnchorOf(span);
    if ParseRef(anchor).Some? {
      var probe, n := Probe(ParseRef(anchor).value), |ing.mapped|;
      AddedAllMiss(ing, base, spans, span);
      CoveringZipPrefix(done.mapped, n, probe);
      assert done.mapped[..n] == ing.mapped;
      CoverSourceKept(ing, done, probe);
    }
  }

  lemma CoverSourceKept(ing: Ingredient, done: Ingredient, probe: VerseId)
    requires ing.mapped <= done.mapped
    requires forall k :: |ing.mapped| <= k < |done.mapped| ==>
               ParseRef(done.mapped[k].0).Some? && !Covers(ParseRef(done.mapped[k].0).value, probe)
    ensures (exists i :: 0 <= i < |done.mapped| && ParseRef(done.mapped[i].0).Some? && Covers(ParseRef(done.mapped[i].0).value, probe))
       <==> (exists i :: 0 <= i < |ing.mapped| && ParseRef(ing.mapped[i].0).Some? && Covers(ParseRef(ing.mapped[i].0).value, probe))
  {
    assert forall i :: 0 <= i < |ing.mapped| ==> done.mapped[i] == ing.mapped[i];
  }

  lemma BlockedStays(ing: Ingredient, g: Growth, g': Growth, anchor: string, range: string)
    requires Blocked(ing, g, anchor, range) && g.mapped <= g'.mapped && g.split <= g'.split
    ensures Blocked(ing, g', anchor, range)
  {
    if HasKey(g.mapped, anchor) {
      var i :| 0 <= i < |g.mapped| && g.mapped[i].0 == anchor;
      assert g'.mapped[i].0 == anchor;
    } else if HasKey(g.mapped, range) {
      var i :| 0 <= i < |g.mapped| && g.mapped[i].0 == range;
      assert g'.mapped[i].0 == range;
    }
  }

  lemma {:induction false} GrowthExtends(ing: Ingredient, base: BaseText, spans: seq<Span>, n: nat)
    requires n <= |spans|
    ensures GrowAll(ing, base, spans[..n]).mapped <= GrowAll(ing, base, spans).mapped
    ensures GrowAll(ing, base, spans[..n]).split <= GrowAll(ing, base, spans).split
  {
    if n < |spans| {
      var init := spans[..|spans| - 1];
      assert init[..n] == spans[..n];
      GrowthExtends(ing, base, init, n);
    } else {
      assert spans[..n] == spans;
    }
  }

  /** On the finished ingredient no span of the list adds anything. */
  /** Once a span has added its anchor, the anchor is a mapping key and blocks the span. */
  lemma AddedBlocks(ing: Ingredient, base: BaseText, spans: seq<Span>, n: nat)
    requires n < |spans| && Addition(ing, base, GrowAll(ing, base, spans[..n]), spans[n]).Some?
    ensures var done := Applied(ing, base, spans);
            spans[n].range.Some? && Blocked(ing, Growth(done.mapped, done.split), AnchorOf(spans[n]), spans[n].range.value)
  {
    var anchor, g, next := AnchorOf(spans[n]), GrowAll(ing, base, spans[..n]), GrowAll(ing, base, spans[..n + 1]);
    assert spans[..n + 1][..n] == spans[..n];
    assert next == Grow(ing, base, g, spans[n]);
    GrowthExtends(ing, base, spans, n + 1);
    assert next.mapped[|g.mapped|].0 == anchor;
    assert HasKey(next.mapped, anchor);
    var done := Applied(ing, base, spans);
    BlockedStays(ing, next, Growth(done.mapped, done.split), anchor, spans[n].range.value);
  }

  lemma NothingMore(ing: Ingredient, base: BaseText, spans: seq<Span>, n: nat)
    requires n < |spans|
    ensures var done := Applied(ing, base, spans);
            Addition(done, base, Growth(done.mapped, done.split), spans[n]) == None
  {
    var span, done := spans[n], Applied(ing, base, spans);
    var g, all := GrowAll(ing, base, spans[..n]), Growth(done.mapped, done.split);
    if span.range.Some? {
      var anchor, range := AnchorOf(span), span.range.value;
      GrowthExtends(ing, base, spans, n);
      if Blocked(ing, g, anchor, range) {
        BlockedStays(ing, g, all, anchor, range);
      } else if Addition(ing, base, g, span).Some? {
        AddedBlocks(ing, base, spans, n);
      } else if !HasKey(done.mapped, anchor) && ParseRef(range).Some? {
        LookupsKept(ing, base, spans, span, ParseRef(range).value);
      }
    }
  }

  lemma {:induction false} NothingGrows(ing: Ingredient, base: BaseText, spans: seq<Span>)
    requires forall n :: 0 <= n < |spans| ==> Addition(ing, base, Growth(ing.mapped, ing.split), spans[n]) == None
    ensures GrowAll(ing, base, spans) == Growth(ing.mapped, ing.split)
  {
    if spans != [] {
      NothingGrows(ing, base, spans[..|spans| - 1]);
    }
  }

  /** Applying the milestone splits twice is applying them once. */
  lemma ApplyTwice(ing: Ingredient, base: BaseText, spans: seq<Span>)
    ensures Applied(Applied(ing, base, spans), base, spans) == Applied(ing, base, spans)
  {
    var done := Applied(ing, base, spans);
    forall n | 0 <= n < |spans| ensures Addition(done, base, Growth(done.mapped, done.split), spans[n]) == None {
      NothingMore(ing, base, spans, n);
    }
    NothingGrows(done, base, spans);
  }

  // ----- derivation of the added splits -----

  /** How many rows of a relation a source reference has. */
  function RowsOf(drafts: seq<Draft>, source: string, relation: Relation): nat {
    if drafts == [] then 0
    else
      var last := drafts[|drafts| - 1];
      RowsOf(drafts[..|drafts| - 1], source, relation) + (if last.source == source && last.relation == relation then 1 else 0)
  }

  lemma {:induction false} RowsConcat(xs: seq<Draft>, ys: seq<Draft>, source: string, relation: Relation)
    ensures RowsOf(xs + ys, source, relation) == RowsOf(xs, source, relation) + RowsOf(ys, source, relation)
  {
    if ys == [] {
      assert xs + ys == xs;
    } else {
      RowsConcat(xs, ys[..|ys| - 1], source, relation);
      assert (xs + ys)[..|xs + ys| - 1] == xs + ys[..|ys| - 1];
    }
  }

  lemma {:induction false} NoRows(drafts: seq<Draft>, source: string, relation: Relation)
    requires forall d :: d in drafts ==> d.source != source || d.relation != relation
    ensures RowsOf(drafts, source, relation) == 0
  {
    if drafts != [] {
      NoRows(drafts[..|drafts| - 1], source, relation);
    }
  }

  function Occurrences(refs: seq<string>, ref: string): nat {
    if refs == [] then 0 else Occurrences(refs[..|refs| - 1], ref) + (if refs[|refs| - 1] == ref then 1 else 0)
  }

  lemma {:induction false} SplitRows(refs: seq<string>, mapped: seq<(string, string)>, ref: string)
    requires HasKey(mapped, ref)
    ensures RowsOf(SplitDrafts(refs, mapped), ref, Split) == Occurrences(refs, ref)
  {
    if refs != [] {
      var init, last := refs[..|refs| - 1], refs[|refs| - 1];
      SplitRows(init, mapped, ref);
      BaseOfIff(mapped, ref);
      if BaseOf(mapped, last).Some? {
        var before, row := SplitDrafts(init, mapped), Draft(last, BaseOf(mapped, last), None, Split);
        assert (before + [row])[..|before|] == before;
      } else {
        assert SplitDrafts(init, mapped) + [] == SplitDrafts(init, mapped);
      }
    }
  }

  lemma {:induction false} OccursOnce(refs: seq<string>, k: nat)
    requires k < |refs| && forall j :: 0 <= j < |refs| && j != k ==> refs[j] != refs[k]
    ensures Occurrences(refs, refs[k]) == 1
  {
    var init := refs[..|refs| - 1];
    if k == |refs| - 1 {
      NeverOccurs(init, refs[k]);
    } else {
      OccursOnce(init, k);
    }
  }

  lemma {:induction false} NeverOccurs(refs: seq<string>, ref: string)
    requires forall j :: 0 <= j < |refs| ==> refs[j] != ref
    ensures Occurrences(refs, ref) == 0
  {
    if refs != [] {
      NeverOccurs(refs[..|refs| - 1], ref);
    }
  }

  lemma RowsOfFive(a: seq<Draft>, b: seq<Draft>, c: seq<Draft>, d: seq<Draft>, e: seq<Draft>, ref: string, r: Relation)
    ensures RowsOf(a + b + c + d + e, ref, r)
            == RowsOf(a, ref, r) + RowsOf(b, ref, r) + RowsOf(c, ref, r) + RowsOf(d, ref, r) + RowsOf(e, ref, r)
  {
    RowsConcat(a + b + c + d, e, ref, r);
    RowsConcat(a + b + c, d, ref, r);
    RowsConcat(a + b, c, ref, r);
    RowsConcat(a, b, ref, r);
  }

  lemma SplitRowsOnly(ing: Ingredient, ref: string)
    requires ref in ing.split && HasKey(ing.mapped, ref)
    ensures RowsOf(Drafts(ing), ref, Split) == Occurrences(ing.split, ref)
    ensures forall r :: r in {Renumber, Shift, OneToOne} ==> RowsOf(Drafts(ing), ref, r) == 0
  {
    var a, b, c := MappedDrafts(ing.mapped, Taken(ing)), ExcludedDrafts(ing.excluded), MergedDrafts(ing.merged, ing.mapped);
    var d, e := SplitDrafts(ing.split, ing.mapped), PartialDrafts(ing.partial);
    MappedDerived(ing.mapped, Taken(ing));
    SplitDerived(ing.split, ing.mapped);
    PartialDerived(ing.partial);
    SplitRows(ing.split, ing.mapped, ref);
    forall r | r in {Split, Renumber, Shift, OneToOne}
      ensures RowsOf(Drafts(ing), ref, r) == RowsOf(d, ref, r)
    {
      OnlyFourth(a, b, c, d, e, ref, r);
    }
    forall r | r in {Renumber, Shift, OneToOne} ensures RowsOf(d, ref, r) == 0 {
      NoRows(d, ref, r);
    }
  }

  lemma OnlyFourth(a: seq<Draft>, b: seq<Draft>, c: seq<Draft>, d: seq<Draft>, e: seq<Draft>, ref: string, r: Relation)
    requires forall x :: x in a || x in b || x in c || x in e ==> x.source != ref || x.relation != r
    ensures RowsOf(a + b + c + d + e, ref, r) == RowsOf(d, ref, r)
  {
    RowsOfFive(a, b, c, d, e, ref, r);
    NoRows(a, ref, r);
    NoRows(b, ref, r);
    NoRows(c, ref, r);
    NoRows(e, ref, r);
  }

  /** Every split that was added has a mapping, and derivation emits exactly one split row and no zip row for it. */
  lemma AddedSplitDerivedOnce(ing: Ingredient, base: BaseText, spans: seq<Span>, anchor: string)
    requires var done := Applied(ing, base, spans); anchor in done.split && anchor !in ing.split
    ensures var done := Applied(ing, base, spans);
            && HasKey(done.mapped, anchor)
            && RowsOf(Drafts(done), anchor, Split) == 1
            && (forall r :: r in {Renumber, Shift, OneToOne, Merge} ==> RowsOf(Drafts(done), anchor, r) == 0)
  {
    var done := Applied(ing, base, spans);
    var added := GrowsBy(ing, base, spans);
    var m := AddedAt(ing, GrowAll(ing, base, spans), added, anchor);
    OncePastPrefix(ing.split, added, m);
    OccursOnce(done.split, |ing.split| + m);
    SplitRowsOnly(done, anchor);
    NoMergeRows(done, anchor);
  }

  /** An anchor that was split anew is one of those added. */
  lemma AddedAt(ing: Ingredient, g: Growth, added: seq<string>, anchor: string) returns (m: nat)
    requires Grown(ing, g, added) && anchor in g.split && anchor !in ing.split
    ensures m < |added| && added[m] == anchor && Fresh(ing, anchor)
    ensures |ing.mapped| + m < |g.mapped| && g.mapped[|ing.mapped| + m].0 == anchor
  {
    assert anchor in added;
    m :| 0 <= m < |added| && added[m] == anchor;
  }

  /** An element that is not in the prefix, and once in the rest, stands in one place. */
  lemma OncePastPrefix(xs: seq<string>, ys: seq<string>, m: nat)
    requires m < |ys| && ys[m] !in xs && forall j, k :: 0 <= j < k < |ys| ==> ys[j] != ys[k]
    ensures (xs + ys)[|xs| + m] == ys[m]
    ensures forall j :: 0 <= j < |xs + ys| && j != |xs| + m ==> (xs + ys)[j] != ys[m]
  {
    forall j | 0 <= j < |xs + ys| && j != |xs| + m ensures (xs + ys)[j] != ys[m] {
      if j < |xs| {
        assert (xs + ys)[j] in xs;
      } else {
        assert (xs + ys)[j] == ys[j - |xs|];
      }
    }
  }

  lemma NoMergeRows(ing: Ingredient, ref: string)
    requires ref !in ing.merged
    ensures RowsOf(Drafts(ing), ref, Merge) == 0
  {
    MappedDerived(ing.mapped, Taken(ing));
    SplitDerived(ing.split, ing.mapped);
    PartialDerived(ing.partial);
    NoRows(Drafts(ing), ref, Merge);
  }
}
