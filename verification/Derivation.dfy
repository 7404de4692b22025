/** Flattening an ingredient into ordered mapping rows. */
module Derivation {
  import opened Options
  import opened Coordinates
  import opened References
  import opened RelationAlgebra
  import Cover

  /** The mapping part of an ingredient; `mapped` keeps the dictionary's insertion order. */
  datatype Ingredient = Ingredient(
    mapped: seq<(string, string)>, merged: seq<string>, split: seq<string>,
    excluded: seq<string>, partial: seq<(string, seq<string>)>
  )

  function BaseOf(mapped: seq<(string, string)>, key: string): Option<string> {
    if mapped == [] then None
    else if mapped[0].0 == key then Some(mapped[0].1)
    else BaseOf(mapped[1..], key)
  }

  predicate HasKey(mapped: seq<(string, string)>, key: string) {
    exists i :: 0 <= i < |mapped| && mapped[i].0 == key
  }

  lemma {:induction false} BaseOfIff(mapped: seq<(string, string)>, key: string)
    ensures BaseOf(mapped, key).Some? <==> HasKey(mapped, key)
  {
    if mapped != [] && mapped[0].0 != key {
      BaseOfIff(mapped[1..], key);
      if HasKey(mapped[1..], key) {
        var i :| 0 <= i < |mapped[1..]| && mapped[1..][i].0 == key;
        assert mapped[i + 1].0 == key;
      }
      if HasKey(mapped, key) {
        var i :| 0 <= i < |mapped| && mapped[i].0 == key;
        assert mapped[1..][i - 1].0 == key;
      }
    } else if mapped != [] {
      assert mapped[0].0 == key;
    }
  }

  // ----- part suffixes -----

  predicate SuffixChar(c: char) {
    'A' <= c <= 'Z' || 'a' <= c <= 'z' || c == '-'
  }

  /** How many trailing characters could be a part suffix. */
  function SuffixRun(s: string): (n: nat)
    ensures n <= |s|
  {
    if s != "" && SuffixChar(s[|s| - 1]) then 1 + SuffixRun(s[..|s| - 1]) else 0
  }

  /** The reference without an embedded part suffix; anything else is returned as it is. */
  function StripPart(value: string): string {
    var t := Strip(value);
    var n := SuffixRun(t);
    if n > 0 && Match(t[..|t| - n]).Some? then t[..|t| - n] else value
  }

  function ParsePlain(value: string): Option<RefRange> {
    ParseRef(StripPart(value))
  }

  // ----- classification -----

  function ClassifyRanges(source: RefRange, base: RefRange): Relation {
    if source.book != base.book then Renumber
    else if source.chapter != base.chapter then Renumber
    else if source.Length() == 1 && base.Length() == 1 && source.first == base.first then OneToOne
    else if source.Length() == base.Length() && source.first != base.first then Shift
    else if source.Length() != base.Length() then Renumber
    else Shift
  }

  /** The relation of a mapped pair, or none when a side does not parse. */
  function ClassifyMapped(key: string, value: string): Option<Relation> {
    match (ParsePlain(key), ParsePlain(value))
    case (Some(source), Some(base)) => Some(ClassifyRanges(source, base))
    case _ => None
  }

  // ----- rows -----

  datatype Draft = Draft(source: string, base: Option<string>, part: Option<string>, relation: Relation)

  datatype Record = Record(draft: Draft, ordinal: nat)

  function MappedDrafts(mapped: seq<(string, string)>, taken: set<string>): seq<Draft> {
    if mapped == [] then []
    else
      var (key, value) := mapped[|mapped| - 1];
      var relation := ClassifyMapped(key, value);
      MappedDrafts(mapped[..|mapped| - 1], taken)
      + (if key in taken || relation.None? then [] else [Draft(key, Some(value), None, relation.value)])
  }

  function ExcludedDrafts(refs: seq<string>): seq<Draft> {
    seq(|refs|, i requires 0 <= i < |refs| => Draft(refs[i], None, None, Exclude))
  }

  function MergedDrafts(refs: seq<string>, mapped: seq<(string, string)>): seq<Draft> {
    seq(|refs|, i requires 0 <= i < |refs| => Draft(refs[i], BaseOf(mapped, refs[i]), None, Merge))
  }

  /** A split without a mapping is left out. */
  function SplitDrafts(refs: seq<string>, mapped: seq<(string, string)>): seq<Draft> {
    if refs == [] then []
    else
      var ref := refs[|refs| - 1];
      var base := BaseOf(mapped, ref);
      SplitDrafts(refs[..|refs| - 1], mapped) + (if base.Some? then [Draft(ref, base, None, Split)] else [])
  }

  function PartDrafts(ref: string, parts: seq<string>): seq<Draft> {
    seq(|parts|, i requires 0 <= i < |parts| => Draft(ref, Some(ref), Some(parts[i]), Partial))
  }

  function PartialDrafts(partial: seq<(string, seq<string>)>): seq<Draft> {
    if partial == [] then []
    else PartialDrafts(partial[..|partial| - 1]) + PartDrafts(partial[|partial| - 1].0, partial[|partial| - 1].1)
  }

  function Taken(ing: Ingredient): set<string> {
    (set ref | ref in ing.merged) + (set ref | ref in ing.split)
  }

  /** All rows in emission order. */
  function Drafts(ing: Ingredient): seq<Draft> {
    MappedDrafts(ing.mapped, Taken(ing)) + ExcludedDrafts(ing.excluded) + MergedDrafts(ing.merged, ing.mapped)
    + SplitDrafts(ing.split, ing.mapped) + PartialDrafts(ing.partial)
  }

  function Numbered(drafts: seq<Draft>): seq<Record> {
    seq(|drafts|, i requires 0 <= i < |drafts| => Record(drafts[i], i))
  }

  /** Append one row under the next ordinal. */
  method Append(rows: seq<Record>, ghost drafts: seq<Draft>, draft: Draft, ordinal: nat)
    returns (rows': seq<Record>, ordinal': nat)
    requires rows == Numbered(drafts) && ordinal == |rows|
    ensures rows' == Numbered(drafts + [draft]) && ordinal' == |rows'|
  {
    rows', ordinal' := rows + [Record(draft, ordinal)], ordinal + 1;
  }

  method AppendMapped(mapped: seq<(string, string)>, taken: set<string>) returns (rows: seq<Record>, ordinal: nat)
    ensures rows == Numbered(MappedDrafts(mapped, taken)) && ordinal == |rows|
  {
    rows, ordinal := [], 0;
    for i := 0 to |mapped|
      invariant rows == Numbered(MappedDrafts(mapped[..i], taken)) && ordinal == |rows|
    {
      assert mapped[..i + 1][..i] == mapped[..i];
      var (key, value) := mapped[i];
      if key in taken {
        continue;
      }
      var relation := ClassifyMapped(key, value);
      if relation == None {
        continue;
      }
      rows, ordinal := Append(rows, MappedDrafts(mapped[..i], taken), Draft(key, Some(value), None, relation.value), ordinal);
    }
    assert mapped[..|mapped|] == mapped;
  }

  method AppendExcluded(rows: seq<Record>, ghost drafts: seq<Draft>, ordinal: nat, refs: seq<string>)
    returns (rows': seq<Record>, ordinal': nat)
    requires rows == Numbered(drafts) && ordinal == |rows|
    ensures rows' == Numbered(drafts + ExcludedDrafts(refs)) && ordinal' == |rows'|
  {
    rows', ordinal' := rows, ordinal;
    assert drafts + ExcludedDrafts([]) == drafts;
    for i := 0 to |refs|
      invariant rows' == Numbered(drafts + ExcludedDrafts(refs[..i])) && ordinal' == |rows'|
    {
      var draft := Draft(refs[i], None, None, Exclude);
      assert drafts + ExcludedDrafts(refs[..i + 1]) == drafts + ExcludedDrafts(refs[..i]) + [draft];
      rows', ordinal' := Append(rows', drafts + ExcludedDrafts(refs[..i]), draft, ordinal');
    }
    assert refs[..|refs|] == refs;
  }

  /** The base of a merged reference: by key, and failing that by comparing every key with the reference. */
  method MergedBase(mapped: seq<(string, string)>, ref: string) returns (base: Option<string>)
    ensures base == BaseOf(mapped, ref)
  {
    base := BaseOf(mapped, ref);
    if base == None {
      for k := 0 to |mapped|
        invariant base == None
      {
        if mapped[k].0 == ref {
          base := Some(mapped[k].1);
          break;
        }
      }
      BaseOfIff(mapped, ref);
    }
  }

  method AppendMerged(rows: seq<Record>, ghost drafts: seq<Draft>, ordinal: nat, refs: seq<string>, mapped: seq<(string, string)>)
    returns (rows': seq<Record>, ordinal': nat)
    requires rows == Numbered(drafts) && ordinal == |rows|
    ensures rows' == Numbered(drafts + MergedDrafts(refs, mapped)) && ordinal' == |rows'|
  {
    rows', ordinal' := rows, ordinal;
    assert drafts + MergedDrafts([], mapped) == drafts;
    for i := 0 to |refs|
      invariant rows' == Numbered(drafts + MergedDrafts(refs[..i], mapped)) && ordinal' == |rows'|
    {
      var base := MergedBase(mapped, refs[i]);
      var draft := Draft(refs[i], base, None, Merge);
      assert drafts + MergedDrafts(refs[..i + 1], mapped) == drafts + MergedDrafts(refs[..i], mapped) + [draft];
      rows', ordinal' := Append(rows', drafts + MergedDrafts(refs[..i], mapped), draft, ordinal');
    }
    assert refs[..|refs|] == refs;
  }

  method AppendSplit(rows: seq<Record>, ghost drafts: seq<Draft>, ordinal: nat, refs: seq<string>, mapped: seq<(string, string)>)
    returns (rows': seq<Record>, ordinal': nat)
    requires rows == Numbered(drafts) && ordinal == |rows|
    ensures rows' == Numbered(drafts + SplitDrafts(refs, mapped)) && ordinal' == |rows'|
  {
    rows', ordinal' := rows, ordinal;
    assert drafts + SplitDrafts([], mapped) == drafts;
    for i := 0 to |refs|
      invariant rows' == Numbered(drafts + SplitDrafts(refs[..i], mapped)) && ordinal' == |rows'|
    {
      assert refs[..i + 1][..i] == refs[..i];
      var base := BaseOf(mapped, refs[i]);
      if base == None {
        continue;
      }
      var draft := Draft(refs[i], base, None, Split);
      assert drafts + SplitDrafts(refs[..i + 1], mapped) == drafts + SplitDrafts(refs[..i], mapped) + [draft];
      rows', ordinal' := Append(rows', drafts + SplitDrafts(refs[..i], mapped), draft, ordinal');
    }
    assert refs[..|refs|] == refs;
  }

  method AppendParts(rows: seq<Record>, ghost drafts: seq<Draft>, ordinal: nat, ref: string, parts: seq<string>)
    returns (rows': seq<Record>, ordinal': nat)
    requires rows == Numbered(drafts) && ordinal == |rows|
    ensures rows' == Numbered(drafts + PartDrafts(ref, parts)) && ordinal' == |rows'|
  {
    rows', ordinal' := rows, ordinal;
    assert drafts + PartDrafts(ref, []) == drafts;
    for i := 0 to |parts|
      invariant rows' == Numbered(drafts + PartDrafts(ref, parts[..i])) && ordinal' == |rows'|
    {
      var draft := Draft(ref, Some(ref), Some(parts[i]), Partial);
      assert drafts + PartDrafts(ref, parts[..i + 1]) == drafts + PartDrafts(ref, parts[..i]) + [draft];
      rows', ordinal' := Append(rows', drafts + PartDrafts(ref, parts[..i]), draft, ordinal');
    }
    assert parts[..|parts|] == parts;
  }

  method AppendPartial(rows: seq<Record>, ghost drafts: seq<Draft>, ordinal: nat, partial: seq<(string, seq<string>)>)
    returns (rows': seq<Record>)
    requires rows == Numbered(drafts) && ordinal == |rows|
    ensures rows' == Numbered(drafts + PartialDrafts(partial))
  {
    rows' := rows;
    var ordinal' := ordinal;
    assert drafts + PartialDrafts([]) == drafts;
    for i := 0 to |partial|
      invariant rows' == Numbered(drafts + PartialDrafts(partial[..i])) && ordinal' == |rows'|
    {
      var (ref, parts) := partial[i];
      ghost var done := drafts + PartialDrafts(partial[..i]);
      assert partial[..i + 1][..i] == partial[..i];
      assert drafts + PartialDrafts(partial[..i + 1]) == done + PartDrafts(ref, parts);
      rows', ordinal' := AppendParts(rows', done, ordinal', ref, parts);
    }
    assert partial[..|partial|] == partial;
  }

  /** The five sources one after another, under one running ordinal. */
  method DeriveMappingRecords(ing: Ingredient) returns (rows: seq<Record>)
    ensures rows == Numbered(Drafts(ing))
  {
    var ordinal;
    ghost var drafts := MappedDrafts(ing.mapped, Taken(ing));
    rows, ordinal := AppendMapped(ing.mapped, Taken(ing));
    rows, ordinal := AppendExcluded(rows, drafts, ordinal, ing.excluded);
    drafts := drafts + ExcludedDrafts(ing.excluded);
    rows, ordinal := AppendMerged(rows, drafts, ordinal, ing.merged, ing.mapped);
    drafts := drafts + MergedDrafts(ing.merged, ing.mapped);
    rows, ordinal := AppendSplit(rows, drafts, ordinal, ing.split, ing.mapped);
    drafts := drafts + SplitDrafts(ing.split, ing.mapped);
    rows := AppendPartial(rows, drafts, ordinal, ing.partial);
  }

  // ----- which rows there are -----

  /** A mapped pair that is listed neither as merged nor as split, and whose two sides parse. */
  predicate FromMapped(ing: Ingredient, d: Draft) {
    d.source !in ing.merged && d.source !in ing.split && OfPair(d) && (d.source, d.base.value) in ing.mapped
  }

  /** A row of a mapped pair whose two sides parse. */
  predicate OfPair(d: Draft) {
    d.part == None && d.base.Some? && ClassifyMapped(d.source, d.base.value) == Some(d.relation)
  }

  /** A part of a verse, which stands for itself. */
  ghost predicate FromPartial(ing: Ingredient, d: Draft) {
    d.relation == Partial && d.base == Some(d.source) && d.part.Some? && HasPart(ing.partial, d.source, d.part.value)
  }

  predicate HasPart(partial: seq<(string, seq<string>)>, ref: string, part: string) {
    exists i :: 0 <= i < |partial| && partial[i].0 == ref && part in partial[i].1
  }

  lemma HasPartSnoc(partial: seq<(string, seq<string>)>, ref: string, part: string)
    requires partial != []
    ensures var init, last := partial[..|partial| - 1], partial[|partial| - 1];
            HasPart(partial, ref, part) <==> HasPart(init, ref, part) || (last.0 == ref && part in last.1)
  {
    var init, n := partial[..|partial| - 1], |partial| - 1;
    assert forall i :: 0 <= i < n ==> init[i] == partial[i];
  }

  /** A row of one of the other three sources; only a merge may stand without a mapping, and a split must have one. */
  ghost predicate FromList(ing: Ingredient, d: Draft) {
    && d.part == None
    && match d.relation
       case Exclude => d.base == None && d.source in ing.excluded
       case Merge => d.base == BaseOf(ing.mapped, d.source) && d.source in ing.merged
       case Split => d.base == BaseOf(ing.mapped, d.source) && d.base.Some? && d.source in ing.split
       case _ => false
  }

  lemma {:induction false} MappedIff(mapped: seq<(string, string)>, taken: set<string>, d: Draft)
    ensures d in MappedDrafts(mapped, taken) <==>
            d.source !in taken && OfPair(d) && (d.source, d.base.value) in mapped
  {
    if mapped != [] {
      var init, last := mapped[..|mapped| - 1], mapped[|mapped| - 1];
      MappedIff(init, taken, d);
      var relation := ClassifyMapped(last.0, last.1);
      if last.0 in taken || relation.None? {
        assert MappedDrafts(mapped, taken) == MappedDrafts(init, taken);
      } else {
        assert MappedDrafts(mapped, taken) == MappedDrafts(init, taken) + [Draft(last.0, Some(last.1), None, relation.value)];
      }
    }
  }

  lemma {:induction false} SplitIff(refs: seq<string>, mapped: seq<(string, string)>, d: Draft)
    ensures d in SplitDrafts(refs, mapped) <==>
            d.source in refs && d.base == BaseOf(mapped, d.source) && d.base.Some? && d.part == None && d.relation == Split
  {
    if refs != [] {
      SplitIff(refs[..|refs| - 1], mapped, d);
      assert refs == refs[..|refs| - 1] + [refs[|refs| - 1]];
    }
  }

  lemma PartIff(ref: string, parts: seq<string>, d: Draft)
    ensures d in PartDrafts(ref, parts) <==>
            d.source == ref && d.base == Some(ref) && d.part.Some? && d.part.value in parts && d.relation == Partial
  {
    if d.part.Some? && d.part.value in parts {
      var i :| 0 <= i < |parts| && parts[i] == d.part.value;
      assert PartDrafts(ref, parts)[i] == Draft(ref, Some(ref), d.part, Partial);
    }
  }

  lemma {:induction false} PartialIff(partial: seq<(string, seq<string>)>, d: Draft)
    ensures d in PartialDrafts(partial) <==>
            d.relation == Partial && d.base == Some(d.source) && d.part.Some? && HasPart(partial, d.source, d.part.value)
  {
    if partial != [] {
      var init, last := partial[..|partial| - 1], partial[|partial| - 1];
      PartialIff(init, d);
      PartIff(last.0, last.1, d);
      if d.part.Some? {
        HasPartSnoc(partial, d.source, d.part.value);
      }
    }
  }

  lemma ListIff(refs: seq<string>, mapped: seq<(string, string)>, d: Draft)
    ensures d in ExcludedDrafts(refs) <==> d == Draft(d.source, None, None, Exclude) && d.source in refs
    ensures d in MergedDrafts(refs, mapped) <==> d == Draft(d.source, BaseOf(mapped, d.source), None, Merge) && d.source in refs
  {
    if d.source in refs {
      var i :| 0 <= i < |refs| && refs[i] == d.source;
      assert ExcludedDrafts(refs)[i] == Draft(d.source, None, None, Exclude);
      assert MergedDrafts(refs, mapped)[i] == Draft(d.source, BaseOf(mapped, d.source), None, Merge);
    }
  }

  /** A row is derived exactly when one of the five sources calls for it. */
  lemma DerivedIff(ing: Ingredient, d: Draft)
    ensures d in Drafts(ing) <==> FromMapped(ing, d) || FromList(ing, d) || FromPartial(ing, d)
  {
    MappedIff(ing.mapped, Taken(ing), d);
    ListIff(ing.excluded, ing.mapped, d);
    ListIff(ing.merged, ing.mapped, d);
    SplitIff(ing.split, ing.mapped, d);
    PartialIff(ing.partial, d);
  }

  /** Rank of a relation among the sources. */
  function SourceRank(r: Relation): nat {
    match r
    case Exclude => 1
    case Merge => 2
    case Split => 3
    case Partial => 4
    case _ => 0
  }

  predicate RankedBetween(drafts: seq<Draft>, low: nat, high: nat) {
    && (forall d :: d in drafts ==> low <= SourceRank(d.relation) <= high)
    && (forall i, j :: 0 <= i < j < |drafts| ==> SourceRank(drafts[i].relation) <= SourceRank(drafts[j].relation))
  }

  predicate AllRanked(drafts: seq<Draft>, rank: nat) {
    forall d :: d in drafts ==> SourceRank(d.relation) == rank
  }

  lemma RanksJoin(drafts: seq<Draft>, more: seq<Draft>, rank: nat)
    requires RankedBetween(drafts, 0, rank) && AllRanked(more, rank + 1)
    ensures RankedBetween(drafts + more, 0, rank + 1)
  {
    var all := drafts + more;
    forall i, j | 0 <= i < j < |all| ensures SourceRank(all[i].relation) <= SourceRank(all[j].relation) {
      assert all[i] in all && all[j] in all;
      assert i < |drafts| ==> all[i] == drafts[i] && drafts[i] in drafts;
      assert i >= |drafts| ==> all[i] in more;
      assert j >= |drafts| ==> all[j] == more[j - |drafts|] && all[j] in more;
    }
  }

  lemma ListsRanked(ing: Ingredient)
    ensures AllRanked(ExcludedDrafts(ing.excluded), 1) && AllRanked(MergedDrafts(ing.merged, ing.mapped), 2)
  {
  }

  lemma RanksChain(d0: seq<Draft>, d1: seq<Draft>, d2: seq<Draft>, d3: seq<Draft>, d4: seq<Draft>)
    requires RankedBetween(d0, 0, 0) && AllRanked(d1, 1) && AllRanked(d2, 2) && AllRanked(d3, 3) && AllRanked(d4, 4)
    ensures RankedBetween(d0 + d1 + d2 + d3 + d4, 0, 4)
  {
    RanksJoin(d0, d1, 0);
    RanksJoin(d0 + d1, d2, 1);
    RanksJoin(d0 + d1 + d2, d3, 2);
    RanksJoin(d0 + d1 + d2 + d3, d4, 3);
  }

  lemma DraftsRanked(ing: Ingredient)
    ensures RankedBetween(Drafts(ing), 0, 4)
  {
    var mapped, excluded := MappedDrafts(ing.mapped, Taken(ing)), ExcludedDrafts(ing.excluded);
    var merged, split := MergedDrafts(ing.merged, ing.mapped), SplitDrafts(ing.split, ing.mapped);
    MappedDerived(ing.mapped, Taken(ing));
    ListsRanked(ing);
    SplitDerived(ing.split, ing.mapped);
    PartialDerived(ing.partial);
    MappedRanked(mapped);
    RanksChain(mapped, excluded, merged, split, PartialDrafts(ing.partial));
  }

  lemma MappedRanked(drafts: seq<Draft>)
    requires forall d :: d in drafts ==> d.relation in {Renumber, Shift, OneToOne}
    ensures RankedBetween(drafts, 0, 0)
  {
    forall i | 0 <= i < |drafts| ensures SourceRank(drafts[i].relation) == 0 {
      assert drafts[i] in drafts;
    }
  }

  /**
   * Ordinals count the rows from 0, and they follow the sources: mapped rows, exclusions, merges,
   * splits, parts. So among rows of one width a lookup prefers them in this order.
   */
  lemma OrdinalsFollowSources(ing: Ingredient)
    ensures forall record :: record in Numbered(Drafts(ing)) ==>
              record.ordinal < |Drafts(ing)| && Numbered(Drafts(ing))[record.ordinal] == record
    ensures forall r, t | r in Numbered(Drafts(ing)) && t in Numbered(Drafts(ing)) ::
              SourceRank(r.draft.relation) < SourceRank(t.draft.relation) ==> r.ordinal < t.ordinal
  {
    DraftsRanked(ing);
    var drafts := Drafts(ing);
    forall r, t | r in Numbered(drafts) && t in Numbered(drafts) && SourceRank(r.draft.relation) < SourceRank(t.draft.relation)
      ensures r.ordinal < t.ordinal
    {
      NumberedAt(drafts, r);
      NumberedAt(drafts, t);
    }
    forall record | record in Numbered(drafts) ensures record.ordinal < |drafts| && Numbered(drafts)[record.ordinal] == record {
      NumberedAt(drafts, record);
    }
  }

  /** A record stands where its ordinal says. */
  lemma NumberedAt(drafts: seq<Draft>, record: Record)
    requires record in Numbered(drafts)
    ensures record.ordinal < |drafts| && Numbered(drafts)[record.ordinal] == record && record.draft == drafts[record.ordinal]
  {
  }

  // ----- what the resolver may rely on -----

  /** A row as the resolver reads it; none when a side that is present does not parse. */
  function ParsedRow(record: Record): Option<Cover.Row> {
    var d := record.draft;
    match ParsePlain(d.source)
    case None => None
    case Some(source) =>
      if d.base.None? then Some(Cover.Row(source, None, d.part, d.relation, record.ordinal))
      else match ParsePlain(d.base.value)
           case None => None
           case Some(base) => Some(Cover.Row(source, Some(base), d.part, d.relation, record.ordinal))
  }

  /** Exclusions carry no base, and only merges may otherwise lack one. */
  predicate DraftDerived(d: Draft) {
    if d.relation == Exclude then d.base == None else d.base == None ==> d.relation == Merge
  }

  lemma {:induction false} MappedDerived(mapped: seq<(string, string)>, taken: set<string>)
    ensures forall d :: d in MappedDrafts(mapped, taken) ==> DraftDerived(d)
    ensures forall d :: d in MappedDrafts(mapped, taken) ==>
              d.source !in taken && d.relation in {Renumber, Shift, OneToOne}
  {
    if mapped != [] {
      MappedDerived(mapped[..|mapped| - 1], taken);
    }
  }

  lemma {:induction false} SplitDerived(refs: seq<string>, mapped: seq<(string, string)>)
    ensures forall d :: d in SplitDrafts(refs, mapped) ==> DraftDerived(d) && d.relation == Split && d.source in refs
  {
    if refs != [] {
      SplitDerived(refs[..|refs| - 1], mapped);
    }
  }

  lemma {:induction false} PartialDerived(partial: seq<(string, seq<string>)>)
    ensures forall d :: d in PartialDrafts(partial) ==> DraftDerived(d) && d.relation == Partial
  {
    if partial != [] {
      PartialDerived(partial[..|partial| - 1]);
    }
  }

  lemma DraftsDerived(ing: Ingredient, d: Draft)
    requires d in Drafts(ing)
    ensures DraftDerived(d)
  {
    MappedDerived(ing.mapped, Taken(ing));
    SplitDerived(ing.split, ing.mapped);
    PartialDerived(ing.partial);
  }

  /** Every derived row that parses is of the kind the resolver assumes. */
  lemma DerivedRows(ing: Ingredient, record: Record)
    requires record in Numbered(Drafts(ing)) && ParsedRow(record).Some?
    ensures Cover.Derived(ParsedRow(record).value)
  {
    assert record.draft in Drafts(ing);
    DraftsDerived(ing, record.draft);
  }
}
