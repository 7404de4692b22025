/** Union-find with path halving, used while composing one pair of schemes. */
module DisjointSets {

  import opened Refs

  /** Side A, side B, or the shared root numbering. */
  datatype Side = SideA | SideO | SideB

  datatype Node = Node(side: Side, verse: Verse)

  type Link = (Node, Node)

  ghost predicate Adjacent(links: set<Link>, x: Node, y: Node) {
    (x, y) in links || (y, x) in links
  }

  ghost predicate Path(links: set<Link>, p: seq<Node>, x: Node, y: Node) {
    && p != [] && p[0] == x && p[|p| - 1] == y
    && forall i, j :: 0 <= i && j == i + 1 && j < |p| ==> Adjacent(links, p[i], p[j])
  }

  /** Joined by a path of unioned pairs. */
  ghost predicate Connected(links: set<Link>, x: Node, y: Node) {
    exists p: seq<Node> :: Path(links, p, x, y)
  }

  lemma ConnectedRefl(links: set<Link>, x: Node)
    ensures Connected(links, x, x)
  {
    assert Path(links, [x], x, x);
  }

  lemma ConnectedLink(links: set<Link>, x: Node, y: Node)
    requires Adjacent(links, x, y)
    ensures Connected(links, x, y)
  {
    assert Path(links, [x, y], x, y);
  }

  lemma ConnectedTrans(links: set<Link>, x: Node, y: Node, z: Node)
    requires Connected(links, x, y) && Connected(links, y, z)
    ensures Connected(links, x, z)
  {
    var p :| Path(links, p, x, y);
    var q :| Path(links, q, y, z);
    var r := p + q[1..];
    forall i, j | 0 <= i && j == i + 1 && j < |r| ensures Adjacent(links, r[i], r[j]) {
      if j < |p| {
        assert r[i] == p[i] && r[j] == p[j];
      } else {
        var k := i - (|p| - 1);
        assert r[i] == q[k] && r[j] == q[k + 1];
      }
    }
    assert Path(links, r, x, z);
  }

  lemma ConnectedSym(links: set<Link>, x: Node, y: Node)
    requires Connected(links, x, y)
    ensures Connected(links, y, x)
  {
    var p :| Path(links, p, x, y);
    var r := seq(|p|, i requires 0 <= i < |p| => p[|p| - 1 - i]);
    forall i, j | 0 <= i && j == i + 1 && j < |r| ensures Adjacent(links, r[i], r[j]) {
      assert Adjacent(links, p[|p| - 1 - j], p[|p| - 1 - i]);
    }
    assert Path(links, r, y, x);
  }

  lemma ConnectedMore(links: set<Link>, more: set<Link>, x: Node, y: Node)
    requires Connected(links, x, y) && links <= more
    ensures Connected(more, x, y)
  {
    var p :| Path(links, p, x, y);
    forall i, j | 0 <= i && j == i + 1 && j < |p| ensures Adjacent(more, p[i], p[j]) {
      assert Adjacent(links, p[i], p[j]);
    }
    assert Path(more, p, x, y);
  }

  /** A labelling that agrees across every link agrees along every path. */
  lemma {:induction false} PathKeepsLabel(links: set<Link>, tag: map<Node, Node>, p: seq<Node>, x: Node, y: Node)
    requires forall a, b :: (a, b) in links ==> a in tag && b in tag && tag[a] == tag[b]
    requires x in tag && Path(links, p, x, y)
    ensures y in tag && tag[x] == tag[y]
    decreases |p|
  {
    if |p| > 1 {
      assert Adjacent(links, p[0], p[1]);
      var q := p[1..];
      forall i, j | 0 <= i && j == i + 1 && j < |q| ensures Adjacent(links, q[i], q[j]) {
        assert Adjacent(links, p[i + 1], p[j + 1]);
      }
      PathKeepsLabel(links, tag, q, p[1], y);
    }
  }

  /** `n` points into the forest, towards its representative, which is a root. */
  ghost predicate Rooted(parent: map<Node, Node>, rep: map<Node, Node>, depth: map<Node, nat>, n: Node)
    requires parent.Keys == rep.Keys == depth.Keys && n in parent
  {
    && parent[n] in parent && rep[parent[n]] == rep[n]
    && (if parent[n] == n then rep[n] == n else depth[parent[n]] < depth[n])
    && rep[n] in parent && parent[rep[n]] == rep[n]
  }

  /** `rep` names the root of every node of the parent forest, and `depth` falls on the way there. */
  ghost predicate Forest(parent: map<Node, Node>, rep: map<Node, Node>, depth: map<Node, nat>) {
    && parent.Keys == rep.Keys == depth.Keys
    && (forall n {:trigger Rooted(parent, rep, depth, n)} :: n in parent ==> Rooted(parent, rep, depth, n))
  }

  /** Links stay inside one class, and every node is linked to its representative. */
  ghost predicate Partition(links: set<Link>, rep: map<Node, Node>) {
    && (forall a, b :: (a, b) in links ==> a in rep && b in rep && rep[a] == rep[b])
    && (forall n {:trigger Connected(links, n, rep[n])} :: n in rep ==> Connected(links, n, rep[n]))
  }

  lemma AddSingleton(parent: map<Node, Node>, rep: map<Node, Node>, depth: map<Node, nat>, links: set<Link>, n: Node)
    requires Forest(parent, rep, depth) && Partition(links, rep) && n !in parent
    ensures Forest(parent[n := n], rep[n := n], depth[n := 0]) && Partition(links, rep[n := n])
  {
    ConnectedRefl(links, n);
    var parent', rep', depth' := parent[n := n], rep[n := n], depth[n := 0];
    forall m | m in rep' ensures Connected(links, m, rep'[m]) {
      if m != n {
        assert Connected(links, m, rep[m]);
      }
    }
    assert parent'.Keys == rep'.Keys == depth'.Keys;
    forall m | m in parent' ensures Rooted(parent', rep', depth', m) {
      if m != n {
        assert Rooted(parent, rep, depth, m);
      }
    }
  }

  /** Pointing a node at its grandparent keeps the forest and its representatives. */
  lemma HalvePath(parent: map<Node, Node>, rep: map<Node, Node>, depth: map<Node, nat>, n: Node)
    requires Forest(parent, rep, depth) && n in parent && parent[n] in parent && parent[n] != n
    ensures parent[parent[n]] in parent
    ensures Forest(parent[n := parent[parent[n]]], rep, depth)
    ensures depth[parent[parent[n]]] < depth[n]
    ensures rep[parent[parent[n]]] == rep[n]
  {
    assert Rooted(parent, rep, depth, n);
    assert Rooted(parent, rep, depth, parent[n]);
    var parent' := parent[n := parent[parent[n]]];
    assert parent'.Keys == parent.Keys;
    assert Rooted(parent, rep, depth, parent[parent[n]]);
    forall m | m in parent' ensures Rooted(parent', rep, depth, m) {
      assert Rooted(parent, rep, depth, m);
    }
  }

  function Relabel(rep: map<Node, Node>, from: Node, to: Node): map<Node, Node> {
    map n | n in rep :: if rep[n] == from then to else rep[n]
  }

  function Sink(depth: map<Node, nat>, rep: map<Node, Node>, from: Node, extra: nat): map<Node, nat>
    requires depth.Keys == rep.Keys
  {
    map n | n in depth :: if rep[n] == from then depth[n] + extra else depth[n]
  }

  /** Hanging one root under another joins exactly their two classes. */
  lemma JoinRoots(parent: map<Node, Node>, rep: map<Node, Node>, depth: map<Node, nat>, l: Node, r: Node)
    requires Forest(parent, rep, depth) && l in parent && r in parent && l != r
    requires rep[l] == l && rep[r] == r
    ensures Forest(parent[r := l], Relabel(rep, r, l), Sink(depth, rep, r, depth[l] + 1))
  {
    var parent', rep', depth' := parent[r := l], Relabel(rep, r, l), Sink(depth, rep, r, depth[l] + 1);
    assert parent'.Keys == rep'.Keys == depth'.Keys;
    assert Rooted(parent, rep, depth, l);
    forall n | n in parent' ensures Rooted(parent', rep', depth', n) {
      assert Rooted(parent, rep, depth, n);
    }
  }

  /** After a union the new link and all old ones are still what the classes say. */
  lemma JoinPartition(links: set<Link>, rep: map<Node, Node>, left: Node, right: Node)
    requires Partition(links, rep) && left in rep && right in rep
    ensures Partition(links + {(left, right)}, Relabel(rep, rep[right], rep[left]))
  {
    var more := links + {(left, right)};
    var rep' := Relabel(rep, rep[right], rep[left]);
    assert Connected(links, left, rep[left]) && Connected(links, right, rep[right]);
    forall n | n in rep' ensures Connected(more, n, rep'[n]) {
      assert Connected(links, n, rep[n]);
      ConnectedMore(links, more, n, rep[n]);
      if rep[n] == rep[right] {
        ConnectedMore(links, more, right, rep[right]);
        ConnectedSym(more, right, rep[right]);
        ConnectedTrans(more, n, rep[n], right);
        ConnectedLink(more, right, left);
        ConnectedTrans(more, n, right, left);
        ConnectedMore(links, more, left, rep[left]);
        ConnectedTrans(more, n, left, rep[left]);
      }
    }
  }

  /** Two nodes have the same representative exactly when the unioned pairs connect them. */
  lemma SameRepIffConnected(links: set<Link>, rep: map<Node, Node>, x: Node, y: Node)
    requires Partition(links, rep) && x in rep && y in rep
    ensures rep[x] == rep[y] <==> Connected(links, x, y)
  {
    if rep[x] == rep[y] {
      assert Connected(links, x, rep[x]) && Connected(links, y, rep[y]);
      ConnectedSym(links, y, rep[y]);
      ConnectedTrans(links, x, rep[x], y);
    }
    if Connected(links, x, y) {
      var p :| Path(links, p, x, y);
      PathKeepsLabel(links, rep, p, x, y);
    }
  }

  /** Python's `dict.setdefault` on the key order: a new key goes last. */
  function Touch(nodes: seq<Node>, n: Node): seq<Node> {
    if n in nodes then nodes else nodes + [n]
  }

  /** The elements of a list, as a set. */
  function Elems(xs: seq<Node>): set<Node> {
    if xs == [] then {} else Elems(xs[..|xs| - 1]) + {xs[|xs| - 1]}
  }

  lemma {:induction false} ElemsMember(xs: seq<Node>, x: Node)
    ensures x in Elems(xs) <==> x in xs
  {
    if xs != [] {
      ElemsMember(xs[..|xs| - 1], x);
      assert xs == xs[..|xs| - 1] + [xs[|xs| - 1]];
    }
  }

  lemma ElemsSnoc(xs: seq<Node>, x: Node)
    ensures Elems(xs + [x]) == Elems(xs) + {x}
  {
    assert (xs + [x])[..|xs|] == xs;
  }

  /** Ghost account of the structure: the pairs unioned so far and the classes they make. */
  datatype Classes = Classes(links: set<Link>, rep: map<Node, Node>, depth: map<Node, nat>)

  ghost predicate Explains(c: Classes, parent: map<Node, Node>, nodes: seq<Node>) {
    Elems(nodes) == parent.Keys && Forest(parent, c.rep, c.depth) && Partition(c.links, c.rep)
  }

  /** What a union leaves behind, whether or not the two nodes already shared a root. */
  lemma UnionKeeps(c: Classes, parent: map<Node, Node>, nodes: seq<Node>, left: Node, right: Node) returns (c': Classes)
    requires Explains(c, parent, nodes)
    requires left in c.rep && right in c.rep && c.rep[left] in c.rep && c.rep[right] in c.rep
    requires c.rep[c.rep[left]] == c.rep[left] && c.rep[c.rep[right]] == c.rep[right]
    ensures c'.links == c.links + {(left, right)}
    ensures var l, r := c.rep[left], c.rep[right];
            Explains(c', if l == r then parent else parent[r := l], nodes)
  {
    var Classes(links, rep, depth) := c;
    var l, r := rep[left], rep[right];
    JoinPartition(links, rep, left, right);
    if l == r {
      assert Relabel(rep, r, l) == rep;
      c' := Classes(links + {(left, right)}, rep, depth);
    } else {
      JoinRoots(parent, rep, depth, l, r);
      assert parent[r := l].Keys == parent.Keys;
      c' := Classes(links + {(left, right)}, Relabel(rep, r, l), Sink(depth, rep, r, depth[l] + 1));
    }
  }

  class DisjointSet {
    var parent: map<Node, Node>
    var nodes: seq<Node>       // keys of `parent` in insertion order
    ghost var classes: Classes

    ghost predicate Valid()
      reads this
    {
      Explains(classes, parent, nodes)
    }

    constructor ()
      ensures Valid() && parent == map[] && nodes == [] && classes.links == {}
    {
      parent, nodes, classes := map[], [], Classes({}, map[], map[]);
    }

    /** Return the representative, halving the path; the partition does not change. */
    method Find(n: Node) returns (root: Node)
      requires Valid()
      modifies this
      ensures Valid() && nodes == Touch(old(nodes), n)
      ensures classes.links == old(classes.links)
      ensures classes.rep == if n in old(classes.rep) then old(classes.rep) else old(classes.rep)[n := n]
      ensures n in classes.rep && root == classes.rep[n]
      ensures root in classes.rep && classes.rep[root] == root
    {
      ElemsMember(nodes, n);
      if n !in parent {
        ElemsSnoc(nodes, n);
        ghost var Classes(links, rep, depth) := classes;
        AddSingleton(parent, rep, depth, links, n);
        nodes := nodes + [n];
        ghost var keys := parent.Keys;
        parent, classes := parent[n := n], Classes(links, rep[n := n], depth[n := 0]);
        assert parent.Keys == keys + {n};
      }
      ghost var c, nodes0 := classes, nodes;
      var node := n;
      while parent[node] != node
        invariant classes == c && nodes == nodes0
        invariant Explains(c, parent, nodes0)
        invariant node in parent && c.rep[node] == c.rep[n]
        decreases c.depth[node]
      {
        assert Rooted(parent, c.rep, c.depth, node);
        HalvePath(parent, c.rep, c.depth, node);
        parent := parent[node := parent[parent[node]]];
        node := parent[node];
      }
      assert Rooted(parent, c.rep, c.depth, node);
      root := node;
    }

    /** Join the sets of the two nodes. */
    method Union(left: Node, right: Node)
      requires Valid()
      modifies this
      ensures Valid() && nodes == Touch(Touch(old(nodes), left), right)
      ensures classes.links == old(classes.links) + {(left, right)}
    {
      var rootLeft := Find(left);
      var rootRight := Find(right);
      ghost var c := UnionKeeps(classes, parent, nodes, left, right);
      if rootLeft != rootRight {
        parent := parent[rootRight := rootLeft];
      }
      classes := c;
    }
  }
}
