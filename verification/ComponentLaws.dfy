/** What the components of a scan are: the classes of the link relation, each listed in scan order. */
module ComponentLaws {
  import opened DisjointSets
  import opened Composition

  /** The nodes connected to `h`, in list order. */
  ghost function Near(links: set<Link>, h: Node, nodes: seq<Node>): (r: seq<Node>)
    ensures forall n :: n in r <==> n in nodes && Connected(links, h, n)
  {
    if nodes == [] then []
    else
      var n := nodes[|nodes| - 1];
      Near(links, h, nodes[..|nodes| - 1]) + (if Connected(links, h, n) then [n] else [])
  }

  /** `cs` lists every class of the link relation on `nodes` exactly once. */
  ghost predicate Classes(links: set<Link>, nodes: seq<Node>, cs: seq<seq<Node>>) {
    && (forall k :: 0 <= k < |cs| ==> cs[k] != [] && cs[k] == Near(links, cs[k][0], nodes))
    && (forall j, k :: 0 <= j < k < |cs| ==> cs[j] != [] && cs[k] != [] && !Connected(links, cs[j][0], cs[k][0]))
    && (forall n :: n in nodes ==> exists k :: 0 <= k < |cs| && n in cs[k])
  }

  lemma NearSnoc(links: set<Link>, h: Node, nodes: seq<Node>, n: Node)
    ensures Near(links, h, nodes + [n]) == Near(links, h, nodes) + (if Connected(links, h, n) then [n] else [])
  {
    assert (nodes + [n])[..|nodes|] == nodes;
  }

  lemma PlaceKeepsClasses(links: set<Link>, nodes: seq<Node>, cs: seq<seq<Node>>, n: Node)
    requires Classes(links, nodes, cs)
    ensures Classes(links, nodes + [n], Place(links, cs, n))
  {
    if k :| 0 <= k < |cs| && cs[k] != [] && Connected(links, cs[k][0], n) {
      forall j | 0 <= j < |cs| && j != k ensures cs[j] != [] && !Connected(links, cs[j][0], n) {
        if Connected(links, cs[j][0], n) {
          ConnectedSym(links, cs[k][0], n);
          ConnectedTrans(links, cs[j][0], n, cs[k][0]);
          ConnectedSym(links, cs[j][0], cs[k][0]);
        }
      }
      PlaceKnown(links, cs, n, k);
      JoinClass(links, nodes, cs, n, k);
    } else {
      PlaceFresh(links, cs, n);
      OpenClass(links, nodes, cs, n);
    }
  }

  lemma JoinClass(links: set<Link>, nodes: seq<Node>, cs: seq<seq<Node>>, n: Node, k: nat)
    requires Classes(links, nodes, cs) && k < |cs| && cs[k] != [] && Connected(links, cs[k][0], n)
    requires forall j :: 0 <= j < |cs| && j != k ==> cs[j] != [] && !Connected(links, cs[j][0], n)
    ensures Classes(links, nodes + [n], cs[k := cs[k] + [n]])
  {
    var cs' := cs[k := cs[k] + [n]];
    forall j | 0 <= j < |cs'| ensures cs'[j] != [] && cs'[j] == Near(links, cs'[j][0], nodes + [n]) {
      assert cs'[j][0] == cs[j][0];
      NearSnoc(links, cs[j][0], nodes, n);
    }
    forall m | m in nodes + [n] ensures exists j :: 0 <= j < |cs'| && m in cs'[j] {
      if m in nodes {
        var j :| 0 <= j < |cs| && m in cs[j];
        assert m in cs'[j];
      } else {
        assert m in cs'[k];
      }
    }
  }

  /** A node in no class is connected to none of the nodes. */
  lemma AloneSoFar(links: set<Link>, nodes: seq<Node>, cs: seq<seq<Node>>, n: Node)
    requires Classes(links, nodes, cs)
    requires forall j :: 0 <= j < |cs| ==> cs[j] != [] && !Connected(links, cs[j][0], n)
    ensures Near(links, n, nodes) == []
  {
    forall m | m in nodes ensures !Connected(links, n, m) {
      var j :| 0 <= j < |cs| && m in cs[j];
      if Connected(links, n, m) {
        ConnectedSym(links, n, m);
        ConnectedTrans(links, cs[j][0], m, n);
      }
    }
    NearNone(links, n, nodes);
  }

  lemma {:induction false} NearNone(links: set<Link>, h: Node, nodes: seq<Node>)
    requires forall m :: m in nodes ==> !Connected(links, h, m)
    ensures Near(links, h, nodes) == []
  {
    if nodes != [] {
      NearNone(links, h, nodes[..|nodes| - 1]);
    }
  }

  lemma OpenClass(links: set<Link>, nodes: seq<Node>, cs: seq<seq<Node>>, n: Node)
    requires Classes(links, nodes, cs)
    requires forall j :: 0 <= j < |cs| ==> cs[j] != [] && !Connected(links, cs[j][0], n)
    ensures Classes(links, nodes + [n], cs + [[n]])
  {
    var cs' := cs + [[n]];
    ConnectedRefl(links, n);
    AloneSoFar(links, nodes, cs, n);
    forall j | 0 <= j < |cs'| ensures cs'[j] != [] && cs'[j] == Near(links, cs'[j][0], nodes + [n]) {
      NearSnoc(links, cs'[j][0], nodes, n);
    }
    OpenCovers(nodes, cs, n);
  }

  lemma OpenCovers(nodes: seq<Node>, cs: seq<seq<Node>>, n: Node)
    requires forall m :: m in nodes ==> exists k :: 0 <= k < |cs| && m in cs[k]
    ensures forall m :: m in nodes + [n] ==> exists k :: 0 <= k < |cs + [[n]]| && m in (cs + [[n]])[k]
  {
    var cs' := cs + [[n]];
    forall m | m in nodes + [n] ensures exists j :: 0 <= j < |cs'| && m in cs'[j] {
      if m in nodes {
        var j :| 0 <= j < |cs| && m in cs[j];
        assert m in cs'[j];
      } else {
        assert m in cs'[|cs|];
      }
    }
  }

  /** The components are the classes of the links: each node sits in one, with exactly the nodes it is connected to. */
  lemma {:induction false} ComponentsAreClasses(links: set<Link>, nodes: seq<Node>)
    ensures Classes(links, nodes, Components(links, nodes))
  {
    if nodes != [] {
      var init, n := nodes[..|nodes| - 1], nodes[|nodes| - 1];
      ComponentsAreClasses(links, init);
      PlaceKeepsClasses(links, init, Components(links, init), n);
      assert init + [n] == nodes;
    }
  }

  /** Every node lies in exactly one component, and shares it with exactly the nodes it is connected to. */
  lemma OneComponentEach(links: set<Link>, nodes: seq<Node>, n: Node) returns (k: nat)
    requires n in nodes
    ensures k < |Components(links, nodes)|
    ensures forall j :: 0 <= j < |Components(links, nodes)| ==> (n in Components(links, nodes)[j] <==> j == k)
    ensures forall m :: m in nodes ==> (m in Components(links, nodes)[k] <==> Connected(links, n, m))
  {
    var cs := Components(links, nodes);
    ComponentsAreClasses(links, nodes);
    k :| 0 <= k < |cs| && n in cs[k];
    var h := cs[k][0];
    ConnectedSym(links, h, n);
    forall j | 0 <= j < |cs| && j != k ensures n !in cs[j] {
      if n in cs[j] {
        ConnectedTrans(links, cs[j][0], n, h);
        ConnectedSym(links, cs[j][0], h);
        assert false;
      }
    }
    forall m | m in nodes ensures m in cs[k] <==> Connected(links, n, m) {
      if m in cs[k] {
        ConnectedTrans(links, n, h, m);
      }
      if Connected(links, n, m) {
        ConnectedTrans(links, h, n, m);
      }
    }
  }
}
