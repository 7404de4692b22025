/** Composing two schemes through the root numbering: which verses are linked, and the components they form. */
module Composition {
  import opened Refs
  import opened Sorting
  import opened Options
  import opened Schemes
  import opened DisjointSets
  import opened Classification

  /** A single-target root edge renames the verse; any other verse keeps its own name. */
  function Canon(org: Option<Scheme>, v: Verse): Verse {
    if org.Some? && v in org.value.edges && |org.value.edges[v]| == 1 then org.value.edges[v][0].org else v
  }

  /** A default identity that lands in a book the root does not have. */
  predicate Unanchored(org: Option<Scheme>, v: Verse, isDefault: bool) {
    isDefault && org.Some? && !Exists(org.value, v) && v.book !in org.value.max
  }

  /** A source verse of one side, and whether it got there by default identity. */
  datatype Claim = Claim(verse: Verse, isDefault: bool)

  /** State of the scan over both sides: union-find nodes and links, edge flags, and who claims each root verse. */
  datatype Scan = Scan(
    nodes: seq<Node>, links: set<Link>,
    flags: map<Node, set<Flag>>,
    claims: map<Node, seq<Claim>>   // keyed by (side, root verse)
  )

  function FlagsOf(flags: map<Node, set<Flag>>, n: Node): set<Flag> {
    if n in flags then flags[n] else {}
  }

  function ClaimsOf(claims: map<Node, seq<Claim>>, n: Node): seq<Claim> {
    if n in claims then claims[n] else []
  }

  function ScanEdge(org: Option<Scheme>, st: Scan, side: Side, v: Verse, isDefault: bool, e: Edge): Scan {
    var node, root := Node(side, v), Node(SideO, Canon(org, e.org));
    var key := Node(side, root.verse);
    var anchor := if Unanchored(org, root.verse, isDefault) then {NoAnchorFlag} else {};
    Scan(
      Touch(Touch(st.nodes, node), root),
      st.links + {(node, root)},
      st.flags[node := FlagsOf(st.flags, node) + anchor + e.flags],
      st.claims[key := ClaimsOf(st.claims, key) + [Claim(v, isDefault)]])
  }

  function ScanEdges(org: Option<Scheme>, st: Scan, side: Side, v: Verse, isDefault: bool, es: seq<Edge>): Scan {
    if es == [] then st
    else ScanEdge(org, ScanEdges(org, st, side, v, isDefault, es[..|es| - 1]), side, v, isDefault, es[|es| - 1])
  }

  /** A verse takes part unless it is a verse 0 that only the default identity names. */
  predicate TakesPart(s: Scheme, v: Verse) {
    !(v.verse == 0 && ToOrg(s, v).1)
  }

  function ScanVerse(org: Option<Scheme>, st: Scan, side: Side, s: Scheme, v: Verse): Scan {
    if !TakesPart(s, v) then st
    else
      var (es, isDefault) := ToOrg(s, v);
      ScanEdges(org, st.(nodes := Touch(st.nodes, Node(side, v))), side, v, isDefault, es)
  }

  function ScanVerses(org: Option<Scheme>, st: Scan, side: Side, s: Scheme, vs: seq<Verse>): Scan {
    if vs == [] then st
    else ScanVerse(org, ScanVerses(org, st, side, s, vs[..|vs| - 1]), side, s, vs[|vs| - 1])
  }

  function ScanBoth(ord: BookOrder, a: Scheme, b: Scheme, org: Option<Scheme>): Scan {
    ScanVerses(org, ScanVerses(org, Scan([], {}, map[], map[]), SideA, a, Verses(ord, a)), SideB, b, Verses(ord, b))
  }

  // ----- connected components -----

  /** Add a node to the first component it is connected to, or open a new one. */
  ghost function Place(links: set<Link>, cs: seq<seq<Node>>, n: Node): seq<seq<Node>> {
    if cs == [] then [[n]]
    else if cs[0] != [] && Connected(links, cs[0][0], n) then [cs[0] + [n]] + cs[1..]
    else [cs[0]] + Place(links, cs[1..], n)
  }

  lemma {:induction false} PlaceFresh(links: set<Link>, cs: seq<seq<Node>>, n: Node)
    requires forall k :: 0 <= k < |cs| ==> cs[k] != [] && !Connected(links, cs[k][0], n)
    ensures Place(links, cs, n) == cs + [[n]]
  {
    if cs != [] {
      assert cs[0] != [] && !Connected(links, cs[0][0], n);
      PlaceFresh(links, cs[1..], n);
    }
  }

  lemma {:induction false} PlaceKnown(links: set<Link>, cs: seq<seq<Node>>, n: Node, k: nat)
    requires k < |cs| && cs[k] != [] && Connected(links, cs[k][0], n)
    requires forall j :: 0 <= j < k ==> cs[j] != [] && !Connected(links, cs[j][0], n)
    ensures Place(links, cs, n) == cs[k := cs[k] + [n]]
  {
    if k > 0 {
      assert cs[0] != [] && !Connected(links, cs[0][0], n);
      PlaceKnown(links, cs[1..], n, k - 1);
    }
  }

  /** The components of the nodes, in order of their first node. */
  ghost function Components(links: set<Link>, nodes: seq<Node>): seq<seq<Node>> {
    if nodes == [] then [] else Place(links, Components(links, nodes[..|nodes| - 1]), nodes[|nodes| - 1])
  }

  function SideVerses(nodes: seq<Node>, side: Side): (r: seq<Verse>)
    ensures forall v :: v in r <==> Node(side, v) in nodes
  {
    if nodes == [] then []
    else
      var n := nodes[|nodes| - 1];
      SideVerses(nodes[..|nodes| - 1], side) + (if n.side == side then [n.verse] else [])
  }

  // ----- identity collisions -----

  /** A default identity and an explicit mapping of one side claim one root verse, inside one book and across chapters. */
  predicate Collides(cs: seq<Claim>) {
    && |cs| > 1
    && (exists c :: c in cs && c.isDefault)
    && (exists c :: c in cs && !c.isDefault)
    && |set c | c in cs :: c.verse.book| == 1
    && |set c | c in cs :: (c.verse.book, c.verse.chapter)| > 1
  }

  /** The (side, verse) nodes that take part in a collision. */
  function Collisions(claims: map<Node, seq<Claim>>): set<Node> {
    set n, c | n in claims && c in claims[n] && Collides(claims[n]) :: Node(n.side, c.verse)
  }

  function FlagUnion(flags: map<Node, set<Flag>>, side: Side, vs: seq<Verse>): set<Flag> {
    if vs == [] then {} else FlagUnion(flags, side, vs[..|vs| - 1]) + FlagsOf(flags, Node(side, vs[|vs| - 1]))
  }

  function CodeUnion(s: Scheme, side: Side, collide: set<Node>, vs: seq<Verse>): set<string> {
    if vs == [] then {}
    else
      var v := vs[|vs| - 1];
      CodeUnion(s, side, collide, vs[..|vs| - 1]) + CodesOf(s, v)
      + (if Node(side, v) in collide then {"identity_collision"} else {})
  }

  /** One component as an unclassified relation. */
  function ComponentRelation(ord: BookOrder, members: seq<Node>, st: Scan, collide: set<Node>, a: Scheme, b: Scheme): Relation {
    var key := (v: Verse) => VersePos(ord, v);
    var va := StableSort(SideVerses(members, SideA), key);
    var vb := StableSort(SideVerses(members, SideB), key);
    var vo := StableSort(SideVerses(members, SideO), key);
    var flags := FlagUnion(st.flags, SideA, va) + FlagUnion(st.flags, SideB, vb);
    var warn :=
      || (exists v :: v in va && Node(SideA, v) in collide)
      || (exists v :: v in vb && Node(SideB, v) in collide)
      || WarnFlag in flags;
    Relation(va, vo, vb, flags, warn,
             CodeUnion(a, SideA, collide, va), CodeUnion(b, SideB, collide, vb),
             [], [], (Zero, Zero), None, None)
  }

  function ComponentRelations(ord: BookOrder, cs: seq<seq<Node>>, st: Scan, collide: set<Node>, a: Scheme, b: Scheme): seq<Relation> {
    if cs == [] then []
    else
      var init := ComponentRelations(ord, cs[..|cs| - 1], st, collide, a, b);
      var r := ComponentRelation(ord, cs[|cs| - 1], st, collide, a, b);
      if r.a == [] && r.b == [] then init else init + SplitAlternates(ord, r)
  }

  /** The relations of two schemes before classification. */
  ghost function Composed(ord: BookOrder, a: Scheme, b: Scheme, org: Option<Scheme>): seq<Relation> {
    var st := ScanBoth(ord, a, b, org);
    ComponentRelations(ord, Components(st.links, st.nodes), st, Collisions(st.claims), a, b)
  }
}
