/** Loading mapping lines into a scheme: unequal ranges are aligned by position, edges keep insertion order. */
module SchemeLoading {
  import opened Refs
  import opened Options
  import opened Schemes

  /** One side of a mapping line; `lettered` when it carries a part letter. */
  datatype MapRange = MapRange(book: string, chapter: nat, first: nat, last: nat, lettered: bool)

  function LineVerses(r: MapRange): seq<Verse>
    requires r.first <= r.last
  {
    seq(r.last - r.first + 1, i requires 0 <= i => Verse(r.book, r.chapter, r.first + i))
  }

  function Min(a: nat, b: nat): nat {
    if a < b then a else b
  }

  /** Every source with every target, sources outermost. */
  function Product(sources: seq<Verse>, targets: seq<Verse>): seq<(Verse, Verse)> {
    if sources == [] then []
    else
      var last := sources[|sources| - 1];
      Product(sources[..|sources| - 1], targets) + seq(|targets|, j requires 0 <= j < |targets| => (last, targets[j]))
  }

  /** Equal lengths pair up, a single verse pairs with all, and unequal ranges run in step with the shorter one held at its end. */
  function Align(sources: seq<Verse>, targets: seq<Verse>): seq<(Verse, Verse)>
    requires sources != [] && targets != []
  {
    if |sources| == |targets| then seq(|sources|, i requires 0 <= i < |sources| => (sources[i], targets[i]))
    else if |sources| == 1 || |targets| == 1 then Product(sources, targets)
    else
      var width := if |sources| > |targets| then |sources| else |targets|;
      seq(width, i requires 0 <= i => (sources[Min(i, |sources| - 1)], targets[Min(i, |targets| - 1)]))
  }

  predicate Uneven(sources: seq<Verse>, targets: seq<Verse>) {
    |sources| != |targets| && |sources| != 1 && |targets| != 1
  }

  function AddTarget(es: seq<Edge>, org: Verse, flags: set<Flag>): seq<Edge> {
    if es == [] then [Edge(org, flags)]
    else if es[0].org == org then [Edge(org, es[0].flags + flags)] + es[1..]
    else [es[0]] + AddTarget(es[1..], org, flags)
  }

  function EdgesAt(s: Scheme, v: Verse): seq<Edge> {
    if v in s.edges then s.edges[v] else []
  }

  /** A pair is stored unless it targets a verse 0 or starts at a verse the maxima do not list. */
  predicate Storable(s: Scheme, pair: (Verse, Verse)) {
    pair.1.verse != 0 && (pair.0.verse != 0 ==> Exists(s, pair.0))
  }

  function AddPair(s: Scheme, pair: (Verse, Verse), flags: set<Flag>): Scheme {
    if !Storable(s, pair) then s
    else
      var stored := s.(edges := s.edges[pair.0 := AddTarget(EdgesAt(s, pair.0), pair.1, flags)]);
      if WarnFlag in flags then stored.(codes := stored.codes[pair.0 := CodesOf(stored, pair.0) + {"unequal_ranges"}])
      else stored
  }

  function AddPairs(s: Scheme, pairs: seq<(Verse, Verse)>, flags: set<Flag>): Scheme {
    if pairs == [] then s else AddPair(AddPairs(s, pairs[..|pairs| - 1], flags), pairs[|pairs| - 1], flags)
  }

  function LineFlags(source: MapRange, target: MapRange, vrs: bool): set<Flag>
    requires source.first <= source.last && target.first <= target.last
  {
    (if source.lettered || target.lettered then {SegmentFlag} else {})
    + (if vrs then {VrsFlag} else {})
    + (if Uneven(LineVerses(source), LineVerses(target)) then {ApproxFlag, WarnFlag} else {})
  }

  /** One mapping line; unparseable and reversed ranges change nothing. */
  function AddLine(s: Scheme, source: Option<MapRange>, target: Option<MapRange>, vrs: bool): Scheme {
    if source.None? || target.None? then s
    else if source.value.last < source.value.first || target.value.last < target.value.first then s
    else AddPairs(s, Align(LineVerses(source.value), LineVerses(target.value)), LineFlags(source.value, target.value, vrs))
  }

  class SchemeLoader {
    var scheme: Scheme

    constructor (scheme: Scheme)
      ensures this.scheme == scheme
    {
      this.scheme := scheme;
    }

    method Add(source: Option<MapRange>, target: Option<MapRange>, vrs: bool)
      modifies this
      ensures scheme == AddLine(old(scheme), source, target, vrs)
    {
      if source == None || target == None {
        return;
      }
      if source.value.last < source.value.first || target.value.last < target.value.first {
        return;
      }
      var pairs := Align(LineVerses(source.value), LineVerses(target.value));
      var flags := LineFlags(source.value, target.value, vrs);
      ghost var before := scheme;
      for i := 0 to |pairs|
        invariant scheme == AddPairs(before, pairs[..i], flags)
      {
        assert pairs[..i + 1][..i] == pairs[..i];
        var src, org := pairs[i].0, pairs[i].1;
        if org.verse == 0 {
          continue;
        }
        if src.verse != 0 && !Exists(scheme, src) {
          continue;
        }
        scheme := scheme.(edges := scheme.edges[src := AddTarget(EdgesAt(scheme, src), org, flags)]);
        if WarnFlag in flags {
          scheme := scheme.(codes := scheme.codes[src := CodesOf(scheme, src) + {"unequal_ranges"}]);
        }
      }
      assert pairs[..|pairs|] == pairs;
    }
  }

  // ----- alignment -----

  lemma {:induction false} ProductAt(sources: seq<Verse>, targets: seq<Verse>)
    ensures |Product(sources, targets)| == |sources| * |targets|
    ensures forall p :: p in Product(sources, targets) <==> p.0 in sources && p.1 in targets
  {
    if sources != [] {
      var init, last := sources[..|sources| - 1], sources[|sources| - 1];
      ProductAt(init, targets);
      assert sources == init + [last];
      var row := seq(|targets|, j requires 0 <= j < |targets| => (last, targets[j]));
      forall p: (Verse, Verse) ensures p in row <==> p.0 == last && p.1 in targets {
        if p.0 == last && p.1 in targets {
          var j :| 0 <= j < |targets| && targets[j] == p.1;
          assert row[j] == p;
        }
      }
    }
  }

  /** Alignment drops no verse of either side and invents none. */
  lemma AlignCovers(sources: seq<Verse>, targets: seq<Verse>)
    requires sources != [] && targets != []
    ensures forall p :: p in Align(sources, targets) ==> p.0 in sources && p.1 in targets
    ensures forall v :: v in sources ==> exists p :: p in Align(sources, targets) && p.0 == v
    ensures forall v :: v in targets ==> exists p :: p in Align(sources, targets) && p.1 == v
  {
    var pairs := Align(sources, targets);
    if |sources| != |targets| && (|sources| == 1 || |targets| == 1) {
      ProductAt(sources, targets);
      forall v | v in sources ensures exists p :: p in pairs && p.0 == v {
        assert (v, targets[0]) in pairs;
      }
      forall v | v in targets ensures exists p :: p in pairs && p.1 == v {
        assert (sources[0], v) in pairs;
      }
    } else {
      forall v | v in sources ensures exists p :: p in pairs && p.0 == v {
        var i :| 0 <= i < |sources| && sources[i] == v;
        assert pairs[i] in pairs && pairs[i].0 == v;
      }
      forall v | v in targets ensures exists p :: p in pairs && p.1 == v {
        var i :| 0 <= i < |targets| && targets[i] == v;
        assert pairs[i] in pairs && pairs[i].1 == v;
      }
    }
  }

  // ----- what loading keeps -----

  /** Every listed verse exists or is a verse 0, has targets, and no two of its targets coincide or are a verse 0. */
  ghost predicate Loaded(s: Scheme) {
    forall v :: v in s.edges ==> (v.verse == 0 || Exists(s, v)) && GoodTargets(s.edges[v])
  }

  ghost predicate DistinctTargets(es: seq<Edge>) {
    forall i, j :: 0 <= i < j < |es| ==> es[i].org != es[j].org
  }

  predicate Targets(es: seq<Edge>, v: Verse) {
    exists e :: e in es && e.org == v
  }

  lemma TargetsOfCons(head: Edge, rest: seq<Edge>, v: Verse)
    ensures Targets([head] + rest, v) <==> head.org == v || Targets(rest, v)
  {
    if head.org == v {
      assert head in [head] + rest;
    }
    if Targets(rest, v) {
      var e :| e in rest && e.org == v;
      assert e in [head] + rest;
    }
  }

  lemma {:induction false} AddTargetTargets(es: seq<Edge>, org: Verse, flags: set<Flag>, v: Verse)
    ensures Targets(AddTarget(es, org, flags), v) <==> v == org || Targets(es, v)
  {
    if es == [] {
      assert [Edge(org, flags)] == [Edge(org, flags)] + [];
      TargetsOfCons(Edge(org, flags), [], v);
    } else {
      assert es == [es[0]] + es[1..];
      TargetsOfCons(es[0], es[1..], v);
      if es[0].org == org {
        TargetsOfCons(Edge(org, es[0].flags + flags), es[1..], v);
      } else {
        AddTargetTargets(es[1..], org, flags, v);
        TargetsOfCons(es[0], AddTarget(es[1..], org, flags), v);
      }
    }
  }

  lemma {:induction false} AddTargetDistinct(es: seq<Edge>, org: Verse, flags: set<Flag>)
    requires DistinctTargets(es)
    ensures AddTarget(es, org, flags) != [] && DistinctTargets(AddTarget(es, org, flags))
  {
    if es != [] && es[0].org != org {
      var rest := AddTarget(es[1..], org, flags);
      AddTargetDistinct(es[1..], org, flags);
      forall i | 0 <= i < |rest| ensures rest[i].org != es[0].org {
        assert rest[i] in rest && Targets(rest, rest[i].org);
        AddTargetTargets(es[1..], org, flags, rest[i].org);
        if Targets(es[1..], rest[i].org) {
          var e :| e in es[1..] && e.org == rest[i].org;
        }
      }
    }
  }

  lemma AddTargetNonzero(es: seq<Edge>, org: Verse, flags: set<Flag>)
    requires org.verse != 0 && forall e :: e in es ==> e.org.verse != 0
    ensures forall e :: e in AddTarget(es, org, flags) ==> e.org.verse != 0
  {
    forall e | e in AddTarget(es, org, flags) ensures e.org.verse != 0 {
      assert Targets(AddTarget(es, org, flags), e.org);
      AddTargetTargets(es, org, flags, e.org);
    }
  }

  ghost predicate GoodTargets(es: seq<Edge>) {
    es != [] && DistinctTargets(es) && forall e :: e in es ==> e.org.verse != 0
  }

  lemma AddPairKeeps(s: Scheme, pair: (Verse, Verse), flags: set<Flag>)
    requires Loaded(s)
    ensures Loaded(AddPair(s, pair, flags)) && AddPair(s, pair, flags).max == s.max
  {
    if Storable(s, pair) {
      var es := EdgesAt(s, pair.0);
      assert pair.0 in s.edges ==> GoodTargets(s.edges[pair.0]);
      GoodAfterAdd(es, pair.1, flags);
      var s' := AddPair(s, pair, flags);
      assert s'.max == s.max && s'.edges == s.edges[pair.0 := AddTarget(es, pair.1, flags)];
      forall v | v in s'.edges ensures (v.verse == 0 || Exists(s', v)) && GoodTargets(s'.edges[v]) {
        assert Exists(s', v) == Exists(s, v);
        assert v == pair.0 || v in s.edges;
      }
    }
  }

  lemma GoodAfterAdd(es: seq<Edge>, org: Verse, flags: set<Flag>)
    requires org.verse != 0 && (es == [] || GoodTargets(es))
    ensures GoodTargets(AddTarget(es, org, flags))
  {
    AddTargetDistinct(es, org, flags);
    AddTargetNonzero(es, org, flags);
  }

  lemma {:induction false} AddPairsKeep(s: Scheme, pairs: seq<(Verse, Verse)>, flags: set<Flag>)
    requires Loaded(s)
    ensures Loaded(AddPairs(s, pairs, flags)) && AddPairs(s, pairs, flags).max == s.max
  {
    if pairs != [] {
      AddPairsKeep(s, pairs[..|pairs| - 1], flags);
      AddPairKeeps(AddPairs(s, pairs[..|pairs| - 1], flags), pairs[|pairs| - 1], flags);
    }
  }

  /** Loading a line keeps the scheme well formed, whatever the line. */
  lemma LineKeeps(s: Scheme, source: Option<MapRange>, target: Option<MapRange>, vrs: bool)
    requires Loaded(s)
    ensures Loaded(AddLine(s, source, target, vrs))
  {
    if source.Some? && target.Some? && source.value.first <= source.value.last && target.value.first <= target.value.last {
      AddPairsKeep(s, Align(LineVerses(source.value), LineVerses(target.value)), LineFlags(source.value, target.value, vrs));
    }
  }

  predicate Mapped(s: Scheme, v: Verse, org: Verse) {
    Targets(EdgesAt(s, v), org)
  }

  lemma PairMapped(s: Scheme, pair: (Verse, Verse), flags: set<Flag>, v: Verse, org: Verse)
    ensures Mapped(AddPair(s, pair, flags), v, org) <==> Mapped(s, v, org) || (pair == (v, org) && Storable(s, pair))
  {
    if Storable(s, pair) {
      AddTargetTargets(EdgesAt(s, pair.0), pair.1, flags, org);
      assert AddPair(s, pair, flags).edges == s.edges[pair.0 := AddTarget(EdgesAt(s, pair.0), pair.1, flags)];
    }
  }

  lemma {:induction false} SameMax(s: Scheme, pairs: seq<(Verse, Verse)>, flags: set<Flag>)
    ensures AddPairs(s, pairs, flags).max == s.max
  {
    if pairs != [] {
      SameMax(s, pairs[..|pairs| - 1], flags);
    }
  }

  /** After loading, a verse maps to a target exactly when it did before or a storable pair of the line says so. */
  lemma {:induction false} PairsMapped(s: Scheme, pairs: seq<(Verse, Verse)>, flags: set<Flag>, v: Verse, org: Verse)
    ensures Mapped(AddPairs(s, pairs, flags), v, org) <==> Mapped(s, v, org) || ((v, org) in pairs && Storable(s, (v, org)))
  {
    if pairs != [] {
      var init, pair := pairs[..|pairs| - 1], pairs[|pairs| - 1];
      assert pairs == init + [pair];
      PairsMapped(s, init, flags, v, org);
      SameMax(s, init, flags);
      PairMapped(AddPairs(s, init, flags), pair, flags, v, org);
    }
  }
}
