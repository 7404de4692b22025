/** What scanning one side adds: its verses in order, its links, its flags and its claims, and nothing else. */
module ScanLaws {
  import opened Refs
  import opened Options
  import opened Schemes
  import opened DisjointSets
  import opened Composition

  // ----- nodes -----

  function TouchVerse(vs: seq<Verse>, v: Verse): seq<Verse> {
    if v in vs then vs else vs + [v]
  }

  /** The verses of one side that take part, each once, in scan order. */
  function Participants(base: seq<Verse>, s: Scheme, vs: seq<Verse>): (r: seq<Verse>)
    ensures forall v :: v in r <==> v in base || (v in vs && TakesPart(s, v))
  {
    if vs == [] then base
    else
      var init, v := Participants(base, s, vs[..|vs| - 1]), vs[|vs| - 1];
      if TakesPart(s, v) then TouchVerse(init, v) else init
  }

  lemma SideOfTouch(nodes: seq<Node>, n: Node, side: Side)
    ensures SideVerses(Touch(nodes, n), side)
            == if n.side == side then TouchVerse(SideVerses(nodes, side), n.verse) else SideVerses(nodes, side)
  {
    if n !in nodes {
      assert (nodes + [n])[..|nodes|] == nodes;
    }
  }

  lemma {:induction false} SideOfEdges(org: Option<Scheme>, st: Scan, side: Side, v: Verse, isDefault: bool, es: seq<Edge>, x: Side)
    requires x != SideO && side != SideO && Node(side, v) in st.nodes
    ensures Node(side, v) in ScanEdges(org, st, side, v, isDefault, es).nodes
    ensures SideVerses(ScanEdges(org, st, side, v, isDefault, es).nodes, x) == SideVerses(st.nodes, x)
  {
    if es != [] {
      var init, last := es[..|es| - 1], es[|es| - 1];
      SideOfEdges(org, st, side, v, isDefault, init, x);
      var mid := ScanEdges(org, st, side, v, isDefault, init);
      SideOfTouch(Touch(mid.nodes, Node(side, v)), Node(SideO, Canon(org, last.org)), x);
    }
  }

  /** Scanning a side adds its participants to that side and leaves the other side alone. */
  lemma {:induction false} SideOfScan(org: Option<Scheme>, st: Scan, side: Side, s: Scheme, vs: seq<Verse>, x: Side)
    requires x != SideO && side != SideO
    ensures SideVerses(ScanVerses(org, st, side, s, vs).nodes, x)
            == if x == side then Participants(SideVerses(st.nodes, x), s, vs) else SideVerses(st.nodes, x)
  {
    if vs != [] {
      var init, v := vs[..|vs| - 1], vs[|vs| - 1];
      SideOfScan(org, st, side, s, init, x);
      var mid := ScanVerses(org, st, side, s, init);
      if TakesPart(s, v) {
        var (es, isDefault) := ToOrg(s, v);
        SideOfTouch(mid.nodes, Node(side, v), x);
        SideOfEdges(org, mid.(nodes := Touch(mid.nodes, Node(side, v))), side, v, isDefault, es, x);
      }
    }
  }

  // ----- links -----

  function EdgeLinks(org: Option<Scheme>, side: Side, v: Verse, es: seq<Edge>): set<Link> {
    if es == [] then {}
    else EdgeLinks(org, side, v, es[..|es| - 1]) + {(Node(side, v), Node(SideO, Canon(org, es[|es| - 1].org)))}
  }

  function SideLinks(org: Option<Scheme>, side: Side, s: Scheme, vs: seq<Verse>): set<Link> {
    if vs == [] then {}
    else
      var v := vs[|vs| - 1];
      SideLinks(org, side, s, vs[..|vs| - 1])
      + (if TakesPart(s, v) then EdgeLinks(org, side, v, ToOrg(s, v).0) else {})
  }

  lemma {:induction false} LinksOfEdges(org: Option<Scheme>, st: Scan, side: Side, v: Verse, isDefault: bool, es: seq<Edge>)
    ensures ScanEdges(org, st, side, v, isDefault, es).links == st.links + EdgeLinks(org, side, v, es)
  {
    if es != [] {
      LinksOfEdges(org, st, side, v, isDefault, es[..|es| - 1]);
    }
  }

  lemma {:induction false} LinksOfScan(org: Option<Scheme>, st: Scan, side: Side, s: Scheme, vs: seq<Verse>)
    ensures ScanVerses(org, st, side, s, vs).links == st.links + SideLinks(org, side, s, vs)
  {
    if vs != [] {
      var init, v := vs[..|vs| - 1], vs[|vs| - 1];
      LinksOfScan(org, st, side, s, init);
      var mid := ScanVerses(org, st, side, s, init);
      if TakesPart(s, v) {
        var (es, isDefault) := ToOrg(s, v);
        LinksOfEdges(org, mid.(nodes := Touch(mid.nodes, Node(side, v))), side, v, isDefault, es);
      }
    }
  }

  /** Every link joins a verse of the side to a root verse, and the side's name is all that tells two sides apart. */
  lemma {:induction false} EdgeLinksRename(org: Option<Scheme>, side: Side, x: Side, v: Verse, es: seq<Edge>, l: Link)
    requires l in EdgeLinks(org, side, v, es)
    ensures l.0 == Node(side, v) && l.1.side == SideO && (Node(x, v), l.1) in EdgeLinks(org, x, v, es)
  {
    if l in EdgeLinks(org, side, v, es[..|es| - 1]) {
      EdgeLinksRename(org, side, x, v, es[..|es| - 1], l);
    }
  }

  lemma {:induction false} SideLinksRename(org: Option<Scheme>, side: Side, x: Side, s: Scheme, vs: seq<Verse>, l: Link)
    requires l in SideLinks(org, side, s, vs)
    ensures l.0.side == side && l.1.side == SideO && (Node(x, l.0.verse), l.1) in SideLinks(org, x, s, vs)
  {
    var v := vs[|vs| - 1];
    if l in SideLinks(org, side, s, vs[..|vs| - 1]) {
      SideLinksRename(org, side, x, s, vs[..|vs| - 1], l);
    } else {
      EdgeLinksRename(org, side, x, v, ToOrg(s, v).0, l);
    }
  }

  /** A participating verse is linked to the root verse of its first edge. */
  lemma {:induction false} ParticipantLinked(org: Option<Scheme>, side: Side, s: Scheme, vs: seq<Verse>, v: Verse)
    requires v in vs && TakesPart(s, v)
    ensures (Node(side, v), Node(SideO, Canon(org, ToOrg(s, v).0[0].org))) in SideLinks(org, side, s, vs)
  {
    if vs[|vs| - 1] == v {
      FirstEdgeLinked(org, side, v, ToOrg(s, v).0);
    } else {
      ParticipantLinked(org, side, s, vs[..|vs| - 1], v);
    }
  }

  lemma {:induction false} FirstEdgeLinked(org: Option<Scheme>, side: Side, v: Verse, es: seq<Edge>)
    requires es != []
    ensures (Node(side, v), Node(SideO, Canon(org, es[0].org))) in EdgeLinks(org, side, v, es)
  {
    if |es| > 1 {
      FirstEdgeLinked(org, side, v, es[..|es| - 1]);
    }
  }

  // ----- flags -----

  function EdgesFlags(org: Option<Scheme>, isDefault: bool, es: seq<Edge>): set<Flag> {
    if es == [] then {}
    else
      var e := es[|es| - 1];
      EdgesFlags(org, isDefault, es[..|es| - 1])
      + (if Unanchored(org, Canon(org, e.org), isDefault) then {NoAnchorFlag} else {}) + e.flags
  }

  /** The flags one verse earns from its own edges. */
  function VerseFlags(org: Option<Scheme>, s: Scheme, v: Verse): set<Flag> {
    EdgesFlags(org, ToOrg(s, v).1, ToOrg(s, v).0)
  }

  lemma {:induction false} FlagsOfEdges(org: Option<Scheme>, st: Scan, side: Side, v: Verse, isDefault: bool, es: seq<Edge>, n: Node)
    ensures FlagsOf(ScanEdges(org, st, side, v, isDefault, es).flags, n)
            == FlagsOf(st.flags, n) + (if n == Node(side, v) then EdgesFlags(org, isDefault, es) else {})
  {
    if es != [] {
      FlagsOfEdges(org, st, side, v, isDefault, es[..|es| - 1], n);
    }
  }

  lemma FlagsOfVerse(org: Option<Scheme>, st: Scan, side: Side, s: Scheme, v: Verse, n: Node)
    ensures FlagsOf(ScanVerse(org, st, side, s, v).flags, n)
            == FlagsOf(st.flags, n) + (if n == Node(side, v) && TakesPart(s, v) then VerseFlags(org, s, v) else {})
  {
    if TakesPart(s, v) {
      var (es, isDefault) := ToOrg(s, v);
      FlagsOfEdges(org, st.(nodes := Touch(st.nodes, Node(side, v))), side, v, isDefault, es, n);
    }
  }

  lemma {:induction false} FlagsOfScan(org: Option<Scheme>, st: Scan, side: Side, s: Scheme, vs: seq<Verse>, n: Node)
    ensures FlagsOf(ScanVerses(org, st, side, s, vs).flags, n)
            == FlagsOf(st.flags, n)
               + (if n.side == side && n.verse in vs && TakesPart(s, n.verse) then VerseFlags(org, s, n.verse) else {})
  {
    if vs != [] {
      var init, v := vs[..|vs| - 1], vs[|vs| - 1];
      FlagsOfScan(org, st, side, s, init, n);
      assert forall u :: u in vs <==> u in init || u == v;
      FlagsOfVerse(org, ScanVerses(org, st, side, s, init), side, s, v, n);
    }
  }

  // ----- claims -----

  function EdgesClaims(org: Option<Scheme>, v: Verse, isDefault: bool, es: seq<Edge>, root: Verse): seq<Claim> {
    if es == [] then []
    else EdgesClaims(org, v, isDefault, es[..|es| - 1], root)
         + (if Canon(org, es[|es| - 1].org) == root then [Claim(v, isDefault)] else [])
  }

  /** Who of one side claims a root verse, in scan order. */
  function SideClaims(org: Option<Scheme>, s: Scheme, vs: seq<Verse>, root: Verse): seq<Claim> {
    if vs == [] then []
    else
      var v := vs[|vs| - 1];
      SideClaims(org, s, vs[..|vs| - 1], root)
      + (if TakesPart(s, v) then EdgesClaims(org, v, ToOrg(s, v).1, ToOrg(s, v).0, root) else [])
  }

  lemma {:induction false} ClaimsOfEdges(org: Option<Scheme>, st: Scan, side: Side, v: Verse, isDefault: bool, es: seq<Edge>, n: Node)
    ensures ClaimsOf(ScanEdges(org, st, side, v, isDefault, es).claims, n)
            == ClaimsOf(st.claims, n) + (if n.side == side then EdgesClaims(org, v, isDefault, es, n.verse) else [])
  {
    if es != [] {
      ClaimsOfEdges(org, st, side, v, isDefault, es[..|es| - 1], n);
      ClaimsOfEdge(org, ScanEdges(org, st, side, v, isDefault, es[..|es| - 1]), side, v, isDefault, es[|es| - 1], n);
    }
  }

  lemma ClaimsOfEdge(org: Option<Scheme>, st: Scan, side: Side, v: Verse, isDefault: bool, e: Edge, n: Node)
    ensures ClaimsOf(ScanEdge(org, st, side, v, isDefault, e).claims, n)
            == ClaimsOf(st.claims, n)
               + (if n.side == side && Canon(org, e.org) == n.verse then [Claim(v, isDefault)] else [])
  {
  }

  lemma ClaimsOfVerse(org: Option<Scheme>, st: Scan, side: Side, s: Scheme, v: Verse, n: Node)
    ensures ClaimsOf(ScanVerse(org, st, side, s, v).claims, n)
            == ClaimsOf(st.claims, n)
               + (if n.side == side && TakesPart(s, v) then EdgesClaims(org, v, ToOrg(s, v).1, ToOrg(s, v).0, n.verse) else [])
  {
    if TakesPart(s, v) {
      var (es, isDefault) := ToOrg(s, v);
      ClaimsOfEdges(org, st.(nodes := Touch(st.nodes, Node(side, v))), side, v, isDefault, es, n);
    }
  }

  lemma {:induction false} ClaimsOfScan(org: Option<Scheme>, st: Scan, side: Side, s: Scheme, vs: seq<Verse>, n: Node)
    ensures ClaimsOf(ScanVerses(org, st, side, s, vs).claims, n)
            == ClaimsOf(st.claims, n) + (if n.side == side then SideClaims(org, s, vs, n.verse) else [])
  {
    if vs != [] {
      var init, v := vs[..|vs| - 1], vs[|vs| - 1];
      ClaimsOfScan(org, st, side, s, init, n);
      ClaimsOfVerse(org, ScanVerses(org, st, side, s, init), side, s, v, n);
    }
  }

  // ----- the whole scan -----

  /** The full scan, side by side: participants, links, flags and claims depend on one side only. */
  lemma ScanBothSides(ord: BookOrder, a: Scheme, b: Scheme, org: Option<Scheme>)
    ensures var st := ScanBoth(ord, a, b, org);
            && SideVerses(st.nodes, SideA) == Participants([], a, Verses(ord, a))
            && SideVerses(st.nodes, SideB) == Participants([], b, Verses(ord, b))
            && st.links == SideLinks(org, SideA, a, Verses(ord, a)) + SideLinks(org, SideB, b, Verses(ord, b))
  {
    var st0 := Scan([], {}, map[], map[]);
    var mid := ScanVerses(org, st0, SideA, a, Verses(ord, a));
    SideOfScan(org, st0, SideA, a, Verses(ord, a), SideA);
    SideOfScan(org, st0, SideA, a, Verses(ord, a), SideB);
    SideOfScan(org, mid, SideB, b, Verses(ord, b), SideA);
    SideOfScan(org, mid, SideB, b, Verses(ord, b), SideB);
    LinksOfScan(org, st0, SideA, a, Verses(ord, a));
    LinksOfScan(org, mid, SideB, b, Verses(ord, b));
  }

  lemma ScanBothFlags(ord: BookOrder, a: Scheme, b: Scheme, org: Option<Scheme>, v: Verse)
    ensures var st := ScanBoth(ord, a, b, org);
            && FlagsOf(st.flags, Node(SideA, v))
               == (if v in Verses(ord, a) && TakesPart(a, v) then VerseFlags(org, a, v) else {})
            && FlagsOf(st.flags, Node(SideB, v))
               == (if v in Verses(ord, b) && TakesPart(b, v) then VerseFlags(org, b, v) else {})
  {
    var st0 := Scan([], {}, map[], map[]);
    var mid := ScanVerses(org, st0, SideA, a, Verses(ord, a));
    FlagsOfScan(org, st0, SideA, a, Verses(ord, a), Node(SideA, v));
    FlagsOfScan(org, st0, SideA, a, Verses(ord, a), Node(SideB, v));
    FlagsOfScan(org, mid, SideB, b, Verses(ord, b), Node(SideA, v));
    FlagsOfScan(org, mid, SideB, b, Verses(ord, b), Node(SideB, v));
  }

  lemma ScanBothClaims(ord: BookOrder, a: Scheme, b: Scheme, org: Option<Scheme>, root: Verse)
    ensures var st := ScanBoth(ord, a, b, org);
            && ClaimsOf(st.claims, Node(SideA, root)) == SideClaims(org, a, Verses(ord, a), root)
            && ClaimsOf(st.claims, Node(SideB, root)) == SideClaims(org, b, Verses(ord, b), root)
            && ClaimsOf(st.claims, Node(SideO, root)) == []
  {
    var st0 := Scan([], {}, map[], map[]);
    var mid := ScanVerses(org, st0, SideA, a, Verses(ord, a));
    forall side: Side ensures ClaimsOf(mid.claims, Node(side, root))
                              == if side == SideA then SideClaims(org, a, Verses(ord, a), root) else [] {
      ClaimsOfScan(org, st0, SideA, a, Verses(ord, a), Node(side, root));
    }
    ClaimsOfScan(org, mid, SideB, b, Verses(ord, b), Node(SideA, root));
    ClaimsOfScan(org, mid, SideB, b, Verses(ord, b), Node(SideB, root));
    ClaimsOfScan(org, mid, SideB, b, Verses(ord, b), Node(SideO, root));
  }

  predicate CollidesAt(cs: seq<Claim>, v: Verse) {
    Collides(cs) && exists c :: c in cs && c.verse == v
  }

  ghost predicate CollidesOver(org: Option<Scheme>, s: Scheme, vs: seq<Verse>, v: Verse) {
    exists root: Verse :: CollidesAt(SideClaims(org, s, vs, root), v)
  }

  lemma CollisionsAt(claims: map<Node, seq<Claim>>, side: Side, v: Verse)
    ensures Node(side, v) in Collisions(claims)
            <==> exists root: Verse :: CollidesAt(ClaimsOf(claims, Node(side, root)), v)
  {
    if Node(side, v) in Collisions(claims) {
      var n: Node, c: Claim :| n in claims && c in claims[n] && Collides(claims[n]) && Node(n.side, c.verse) == Node(side, v);
      assert CollidesAt(ClaimsOf(claims, Node(side, n.verse)), v);
    }
    if root: Verse :| CollidesAt(ClaimsOf(claims, Node(side, root)), v) {
      var n := Node(side, root);
      assert n in claims;
      var c :| c in claims[n] && c.verse == v;
      assert Node(n.side, c.verse) in Collisions(claims);
    }
  }

  /** A verse takes part in a collision exactly when its side's claims on some root verse collide over it. */
  lemma ScanBothCollisions(ord: BookOrder, a: Scheme, b: Scheme, org: Option<Scheme>, v: Verse)
    ensures var collide := Collisions(ScanBoth(ord, a, b, org).claims);
            && (Node(SideA, v) in collide <==> CollidesOver(org, a, Verses(ord, a), v))
            && (Node(SideB, v) in collide <==> CollidesOver(org, b, Verses(ord, b), v))
  {
    var claims := ScanBoth(ord, a, b, org).claims;
    forall root: Verse ensures ClaimsOf(claims, Node(SideA, root)) == SideClaims(org, a, Verses(ord, a), root)
                            && ClaimsOf(claims, Node(SideB, root)) == SideClaims(org, b, Verses(ord, b), root) {
      ScanBothClaims(ord, a, b, org, root);
    }
    CollisionsAt(claims, SideA, v);
    CollisionsAt(claims, SideB, v);
  }
}
