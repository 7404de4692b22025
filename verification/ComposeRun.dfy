/** The composing loops: scan both sides into the disjoint-set, read off components, split and classify. */
module CompositionRun {
  import opened Refs
  import opened Options
  import opened Schemes
  import opened DisjointSets
  import opened Classification
  import opened Composition
  import opened ClassificationRun

  /** The scan state the loop variables stand for. */
  ghost function ScanOf(parts: DisjointSet, flags: map<Node, set<Flag>>, claims: map<Node, seq<Claim>>): Scan
    reads parts
  {
    Scan(parts.nodes, parts.classes.links, flags, claims)
  }

  lemma FlagsInTwoSteps(flags: map<Node, set<Flag>>, n: Node, anchor: bool, more: set<Flag>)
    ensures var f := if anchor then flags[n := FlagsOf(flags, n) + {NoAnchorFlag}] else flags;
            f[n := FlagsOf(f, n) + more]
            == flags[n := FlagsOf(flags, n) + (if anchor then {NoAnchorFlag} else {}) + more]
  {
    if !anchor {
      assert FlagsOf(flags, n) + {} + more == FlagsOf(flags, n) + more;
    }
  }

  method ScanTarget(parts: DisjointSet, org: Option<Scheme>, side: Side, v: Verse, isDefault: bool, e: Edge,
                    flags: map<Node, set<Flag>>, claims: map<Node, seq<Claim>>)
      returns (flags': map<Node, set<Flag>>, claims': map<Node, seq<Claim>>)
    requires parts.Valid()
    modifies parts
    ensures parts.Valid()
    ensures ScanOf(parts, flags', claims') == ScanEdge(org, old(ScanOf(parts, flags, claims)), side, v, isDefault, e)
  {
    var node := Node(side, v);
    var mapped := Canon(org, e.org);
    flags' := flags;
    if Unanchored(org, mapped, isDefault) {
      flags' := flags'[node := FlagsOf(flags', node) + {NoAnchorFlag}];
    }
    parts.Union(node, Node(SideO, mapped));
    flags' := flags'[node := FlagsOf(flags', node) + e.flags];
    var key := Node(side, mapped);
    claims' := claims[key := ClaimsOf(claims, key) + [Claim(v, isDefault)]];
    FlagsInTwoSteps(flags, node, Unanchored(org, mapped, isDefault), e.flags);
  }

  method ScanTargets(parts: DisjointSet, org: Option<Scheme>, side: Side, v: Verse, isDefault: bool, es: seq<Edge>,
                     flags: map<Node, set<Flag>>, claims: map<Node, seq<Claim>>)
      returns (flags': map<Node, set<Flag>>, claims': map<Node, seq<Claim>>)
    requires parts.Valid()
    modifies parts
    ensures parts.Valid()
    ensures ScanOf(parts, flags', claims') == ScanEdges(org, old(ScanOf(parts, flags, claims)), side, v, isDefault, es)
  {
    flags', claims' := flags, claims;
    ghost var start := ScanOf(parts, flags, claims);
    for i := 0 to |es|
      invariant parts.Valid()
      invariant ScanOf(parts, flags', claims') == ScanEdges(org, start, side, v, isDefault, es[..i])
    {
      assert es[..i + 1][..i] == es[..i];
      flags', claims' := ScanTarget(parts, org, side, v, isDefault, es[i], flags', claims');
    }
    assert es[..|es|] == es;
  }

  /** Link every verse of one side to the root verses it maps to. */
  method ScanSide(parts: DisjointSet, org: Option<Scheme>, side: Side, s: Scheme, vs: seq<Verse>,
                  flags: map<Node, set<Flag>>, claims: map<Node, seq<Claim>>)
      returns (flags': map<Node, set<Flag>>, claims': map<Node, seq<Claim>>)
    requires parts.Valid()
    modifies parts
    ensures parts.Valid()
    ensures ScanOf(parts, flags', claims') == ScanVerses(org, old(ScanOf(parts, flags, claims)), side, s, vs)
  {
    flags', claims' := flags, claims;
    ghost var start := ScanOf(parts, flags, claims);
    for i := 0 to |vs|
      invariant parts.Valid()
      invariant ScanOf(parts, flags', claims') == ScanVerses(org, start, side, s, vs[..i])
    {
      assert vs[..i + 1][..i] == vs[..i];
      var (targets, isDefault) := ToOrg(s, vs[i]);
      if vs[i].verse == 0 && isDefault {
        continue;
      }
      var _ := parts.Find(Node(side, vs[i]));
      flags', claims' := ScanTargets(parts, org, side, vs[i], isDefault, targets, flags', claims');
    }
    assert vs[..|vs|] == vs;
  }

  // ----- reading off the components -----

  /** Component `k` of `cs` is the one whose representative is `keys[k]`. */
  ghost predicate Keyed(cs: seq<seq<Node>>, keys: seq<Node>, rep: map<Node, Node>) {
    && |cs| == |keys|
    && (forall k :: 0 <= k < |cs| ==> cs[k] != [] && cs[k][0] in rep && rep[cs[k][0]] == keys[k])
    && (forall j, k :: 0 <= j < k < |keys| ==> keys[j] != keys[k])
  }

  lemma KeyedApart(links: set<Link>, cs: seq<seq<Node>>, keys: seq<Node>, rep: map<Node, Node>, n: Node)
    requires Partition(links, rep) && n in rep && Keyed(cs, keys, rep)
    ensures forall k :: 0 <= k < |cs| ==> cs[k] != [] && (Connected(links, cs[k][0], n) <==> keys[k] == rep[n])
  {
    forall k | 0 <= k < |cs| ensures cs[k] != [] && (Connected(links, cs[k][0], n) <==> keys[k] == rep[n]) {
      SameRepIffConnected(links, rep, cs[k][0], n);
    }
  }

  function Listed(groups: map<Node, seq<Node>>, keys: seq<Node>): seq<seq<Node>> {
    seq(|keys|, i requires 0 <= i < |keys| => if keys[i] in groups then groups[keys[i]] else [])
  }

  /** `groups` lists the components of the nodes seen so far under their representatives. */
  ghost predicate Read(c: Classes, nodes: seq<Node>, keys: seq<Node>, groups: map<Node, seq<Node>>) {
    && Elems(keys) == groups.Keys
    && Components(c.links, nodes) == Listed(groups, keys)
    && Keyed(Listed(groups, keys), keys, c.rep)
  }

  lemma KnownPlaced(c: Classes, nodes: seq<Node>, cs: seq<seq<Node>>, keys: seq<Node>, n: Node, k: nat)
    requires Partition(c.links, c.rep) && n in c.rep && cs == Components(c.links, nodes) && Keyed(cs, keys, c.rep)
    requires k < |keys| && keys[k] == c.rep[n]
    ensures Components(c.links, nodes + [n]) == cs[k := cs[k] + [n]]
  {
    assert (nodes + [n])[..|nodes|] == nodes;
    KeyedApart(c.links, cs, keys, c.rep, n);
    PlaceKnown(c.links, cs, n, k);
  }

  lemma ReadKnown(c: Classes, nodes: seq<Node>, keys: seq<Node>, groups: map<Node, seq<Node>>, n: Node)
    requires Partition(c.links, c.rep) && n in c.rep && Read(c, nodes, keys, groups) && c.rep[n] in groups
    ensures Read(c, nodes + [n], keys, groups[c.rep[n] := groups[c.rep[n]] + [n]])
  {
    var root, cs := c.rep[n], Listed(groups, keys);
    ElemsMember(keys, root);
    var k :| 0 <= k < |keys| && keys[k] == root;
    KnownPlaced(c, nodes, cs, keys, n, k);
    GrownKeyed(cs, keys, c.rep, n, k);
    GrownListed(groups, keys, n, k);
    assert groups[root := groups[root] + [n]].Keys == groups.Keys;
  }

  lemma GrownListed(groups: map<Node, seq<Node>>, keys: seq<Node>, n: Node, k: nat)
    requires k < |keys| && keys[k] in groups
    requires forall i, j :: 0 <= i < j < |keys| ==> keys[i] != keys[j]
    ensures Listed(groups[keys[k] := groups[keys[k]] + [n]], keys)
            == Listed(groups, keys)[k := Listed(groups, keys)[k] + [n]]
  {
  }

  lemma GrownKeyed(cs: seq<seq<Node>>, keys: seq<Node>, rep: map<Node, Node>, n: Node, k: nat)
    requires Keyed(cs, keys, rep) && k < |cs|
    ensures Keyed(cs[k := cs[k] + [n]], keys, rep)
  {
  }

  lemma FreshPlaced(c: Classes, nodes: seq<Node>, cs: seq<seq<Node>>, keys: seq<Node>, n: Node)
    requires Partition(c.links, c.rep) && n in c.rep && cs == Components(c.links, nodes) && Keyed(cs, keys, c.rep)
    requires c.rep[n] !in keys
    ensures Components(c.links, nodes + [n]) == cs + [[n]]
  {
    assert (nodes + [n])[..|nodes|] == nodes;
    KeyedApart(c.links, cs, keys, c.rep, n);
    PlaceFresh(c.links, cs, n);
  }

  lemma FreshListed(groups: map<Node, seq<Node>>, keys: seq<Node>, root: Node, n: Node)
    requires root !in keys
    ensures Listed(groups[root := [n]], keys + [root]) == Listed(groups, keys) + [[n]]
  {
    var cs, cs' := Listed(groups, keys), Listed(groups[root := [n]], keys + [root]);
    forall i | 0 <= i < |keys| ensures cs'[i] == cs[i] {
      assert keys[i] in keys;
    }
  }

  lemma ReadFresh(c: Classes, nodes: seq<Node>, keys: seq<Node>, groups: map<Node, seq<Node>>, n: Node)
    requires Partition(c.links, c.rep) && n in c.rep && Read(c, nodes, keys, groups) && c.rep[n] !in groups
    ensures Read(c, nodes + [n], keys + [c.rep[n]], groups[c.rep[n] := [n]])
  {
    var root, cs := c.rep[n], Listed(groups, keys);
    ElemsMember(keys, root);
    ElemsSnoc(keys, root);
    FreshPlaced(c, nodes, cs, keys, n);
    FreshListed(groups, keys, root, n);
    FreshKeyed(cs, keys, c.rep, n);
  }

  lemma FreshKeyed(cs: seq<seq<Node>>, keys: seq<Node>, rep: map<Node, Node>, n: Node)
    requires Keyed(cs, keys, rep) && n in rep && rep[n] !in keys
    ensures Keyed(cs + [[n]], keys + [rep[n]], rep)
  {
  }

  method Bucket(ghost c: Classes, ghost nodes: seq<Node>, keys: seq<Node>, groups: map<Node, seq<Node>>, n: Node, root: Node)
      returns (keys': seq<Node>, groups': map<Node, seq<Node>>)
    requires Partition(c.links, c.rep) && n in c.rep && root == c.rep[n] && Read(c, nodes, keys, groups)
    ensures Read(c, nodes + [n], keys', groups')
  {
    if root in groups {
      ReadKnown(c, nodes, keys, groups, n);
      keys', groups' := keys, groups[root := groups[root] + [n]];
    } else {
      ReadFresh(c, nodes, keys, groups, n);
      keys', groups' := keys + [root], groups[root := [n]];
    }
  }

  /** Looking up a listed node changes the parent pointers only. */
  method Representative(parts: DisjointSet, n: Node) returns (root: Node)
    requires parts.Valid() && n in parts.nodes
    modifies parts
    ensures parts.Valid() && parts.nodes == old(parts.nodes)
    ensures parts.classes.links == old(parts.classes.links) && parts.classes.rep == old(parts.classes.rep)
    ensures Partition(parts.classes.links, parts.classes.rep) && n in parts.classes.rep && root == parts.classes.rep[n]
  {
    ElemsMember(parts.nodes, n);
    root := parts.Find(n);
  }

  /** Bucket every node by its representative. */
  method ReadComponents(parts: DisjointSet) returns (components: seq<seq<Node>>)
    requires parts.Valid()
    modifies parts
    ensures parts.Valid() && components == old(Components(parts.classes.links, parts.nodes))
  {
    var nodes := parts.nodes;
    ghost var c := parts.classes;
    var keys: seq<Node> := [];
    var groups: map<Node, seq<Node>> := map[];
    for i := 0 to |nodes|
      invariant parts.Valid() && parts.nodes == nodes && parts.classes.links == c.links && parts.classes.rep == c.rep
      invariant Read(c, nodes[..i], keys, groups)
    {
      var root := Representative(parts, nodes[i]);
      assert nodes[..i] + [nodes[i]] == nodes[..i + 1];
      keys, groups := Bucket(c, nodes[..i], keys, groups, nodes[i], root);
    }
    assert nodes[..|nodes|] == nodes;
    components := Listed(groups, keys);
  }

  /** The relation of each component that lists a verse, split; `found` is the scan without its ghost links. */
  method SplitComponents(ord: BookOrder, components: seq<seq<Node>>, found: Scan, ghost st: Scan, collide: set<Node>, a: Scheme, b: Scheme)
      returns (relations: seq<Relation>)
    requires found.flags == st.flags
    ensures relations == ComponentRelations(ord, components, st, collide, a, b)
  {
    relations := [];
    for i := 0 to |components|
      invariant relations == ComponentRelations(ord, components[..i], st, collide, a, b)
    {
      assert components[..i + 1][..i] == components[..i];
      var r := ComponentRelation(ord, components[i], found, collide, a, b);
      assert r == ComponentRelation(ord, components[i], st, collide, a, b);
      if r.a == [] && r.b == [] {
        continue;
      }
      relations := relations + SplitAlternates(ord, r);
    }
    assert components[..|components|] == components;
  }

  /** Classified relations for A through the root to B. */
  method ComposeSchemes(ord: BookOrder, a: Scheme, b: Scheme, org: Option<Scheme>) returns (table: RelationTable)
    ensures fresh(table)
    ensures Classified(ord, Composed(ord, a, b, org), a, b, table.items)
  {
    var parts := new DisjointSet();
    var flags, claims := ScanSide(parts, org, SideA, a, Verses(ord, a), map[], map[]);
    flags, claims := ScanSide(parts, org, SideB, b, Verses(ord, b), flags, claims);
    ghost var st := ScanOf(parts, flags, claims);
    assert st == ScanBoth(ord, a, b, org);
    var found := Scan(parts.nodes, {}, flags, claims);
    var collide := Collisions(claims);
    var components := ReadComponents(parts);
    var relations := SplitComponents(ord, components, found, st, collide, a, b);
    table := new RelationTable(relations);
    table.Classify(ord, a, b);
  }
}
