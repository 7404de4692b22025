/** Greedy grouping of a list: an element joins the group before it when it links to that group's last element. */
module Grouping {

  function Groups<T>(link: (T, T) -> bool, xs: seq<T>): seq<seq<T>> {
    if xs == [] then []
    else
      var last := |xs| - 1;
      Extend(link, Groups(link, xs[..last]), xs[last])
  }

  function Last<T>(xs: seq<T>): T
    requires xs != []
  {
    xs[|xs| - 1]
  }

  /** One step of the loop: grow the open group or open a new one. */
  function Extend<T>(link: (T, T) -> bool, gs: seq<seq<T>>, x: T): seq<seq<T>> {
    if gs != [] && Last(gs) != [] && link(Last(Last(gs)), x) then gs[..|gs| - 1] + [Last(gs) + [x]]
    else gs + [[x]]
  }

  lemma GroupsSnoc<T>(link: (T, T) -> bool, xs: seq<T>, x: T)
    ensures Groups(link, xs + [x]) == Extend(link, Groups(link, xs), x)
  {
    assert (xs + [x])[..|xs|] == xs;
  }

  /** The open group grows. */
  lemma ExtendJoins<T>(link: (T, T) -> bool, gs: seq<seq<T>>, x: T)
    requires gs != [] && Last(gs) != [] && link(Last(Last(gs)), x)
    ensures var gs' := Extend(link, gs, x);
            gs' != [] && Last(gs') == Last(gs) + [x] && gs'[..|gs'| - 1] == gs[..|gs| - 1]
  {
  }

  /** A new group opens, the old ones are closed. */
  lemma ExtendOpens<T>(link: (T, T) -> bool, gs: seq<seq<T>>, x: T)
    requires gs == [] || (Last(gs) != [] && !link(Last(Last(gs)), x))
    ensures var gs' := Extend(link, gs, x); gs' != [] && Last(gs') == [x] && gs'[..|gs'| - 1] == gs
  {
  }

  function Flatten<T>(gs: seq<seq<T>>): seq<T> {
    if gs == [] then [] else Flatten(gs[..|gs| - 1]) + Last(gs)
  }

  /** Within a group every element links to the next. */
  ghost predicate Chain<T>(link: (T, T) -> bool, g: seq<T>) {
    g != [] && forall i, j :: 0 <= i && j == i + 1 && j < |g| ==> link(g[i], g[j])
  }

  /** The first group could not have gone on with the second. */
  ghost predicate Break<T>(link: (T, T) -> bool, g: seq<T>, h: seq<T>) {
    g != [] && h != [] && !link(Last(g), h[0])
  }

  /** A grouping that keeps links together and could not have kept more. */
  ghost predicate Maximal<T>(link: (T, T) -> bool, gs: seq<seq<T>>) {
    && (forall g :: g in gs ==> Chain(link, g))
    && (forall i, j :: 0 <= i && j == i + 1 && j < |gs| ==> Break(link, gs[i], gs[j]))
  }

  lemma ExtendMaximal<T>(link: (T, T) -> bool, gs: seq<seq<T>>, x: T)
    requires Maximal(link, gs)
    ensures Maximal(link, Extend(link, gs, x))
    ensures Flatten(Extend(link, gs, x)) == Flatten(gs) + [x]
  {
    var r := Extend(link, gs, x);
    if gs == [] {
      assert r == [[x]] && r[..0] == [];
    } else {
      var init, g := gs[..|gs| - 1], Last(gs);
      assert g in gs && Chain(link, g);
      if link(Last(g), x) {
        assert r == init + [g + [x]] && r[..|r| - 1] == init;
        assert Chain(link, g + [x]);
        assert forall h :: h in init ==> h in gs;
        forall i, j | 0 <= i && j == i + 1 && j < |r| ensures Break(link, r[i], r[j]) {
          assert Break(link, gs[i], gs[j]);
        }
        assert Flatten(init) + (g + [x]) == (Flatten(init) + g) + [x];
      } else {
        assert r == gs + [[x]] && r[..|r| - 1] == gs;
      }
    }
  }

  /** Grouping loses nothing, keeps the order, and is maximal. */
  lemma {:induction false} GroupsMaximal<T>(link: (T, T) -> bool, xs: seq<T>)
    ensures Flatten(Groups(link, xs)) == xs
    ensures Maximal(link, Groups(link, xs))
  {
    if xs == [] {
    } else {
      var last := |xs| - 1;
      var before := Groups(link, xs[..last]);
      GroupsMaximal(link, xs[..last]);
      ExtendMaximal(link, before, xs[last]);
      assert Groups(link, xs) == Extend(link, before, xs[last]);
      assert xs[..last] + [xs[last]] == xs;
    }
  }

  /** The grouping is determined: any maximal split of the list is the greedy one. */
  lemma {:induction false} GroupsUnique<T>(link: (T, T) -> bool, xs: seq<T>, gs: seq<seq<T>>)
    requires Flatten(gs) == xs && Maximal(link, gs)
    ensures gs == Groups(link, xs)
    decreases |xs|
  {
    if gs == [] {
    } else {
      var g, init := Last(gs), gs[..|gs| - 1];
      assert g in gs && Chain(link, g);
      var last := |xs| - 1;
      var short := g[..|g| - 1];
      assert g == short + [Last(g)];
      assert xs == Flatten(init) + short + [Last(g)];
      assert xs[..last] == Flatten(init) + short && xs[last] == Last(g);
      ShorterMaximal(link, gs);
      var before := if |g| == 1 then init else init + [short];
      if |g| == 1 {
        assert Flatten(init) + short == Flatten(init);
      } else {
        assert before[..|before| - 1] == init;
      }
      GroupsUnique(link, xs[..last], before);
      assert Groups(link, xs) == Extend(link, before, xs[last]);
      ExtendUndoes(link, gs);
    }
  }

  /** Re-adding the last element of a maximal grouping gives the grouping back. */
  lemma ExtendUndoes<T>(link: (T, T) -> bool, gs: seq<seq<T>>)
    requires gs != [] && Maximal(link, gs)
    ensures var g, init := Last(gs), gs[..|gs| - 1];
            g != [] && Extend(link, if |g| == 1 then init else init + [g[..|g| - 1]], Last(g)) == gs
  {
    var g, init := Last(gs), gs[..|gs| - 1];
    assert g in gs && Chain(link, g);
    var short := g[..|g| - 1];
    assert g == short + [Last(g)];
    if |g| == 1 {
      assert g == [Last(g)];
      if init != [] {
        assert Break(link, gs[|gs| - 2], gs[|gs| - 1]);
      }
      assert gs == init + [g];
    } else {
      assert link(g[|g| - 2], g[|g| - 1]);
      var before := init + [short];
      assert Last(before) == short && Last(short) == g[|g| - 2];
      assert before[..|before| - 1] == init;
      assert gs == init + [g];
    }
  }

  /** Dropping the last element keeps a grouping maximal. */
  lemma ShorterMaximal<T>(link: (T, T) -> bool, gs: seq<seq<T>>)
    requires gs != [] && Maximal(link, gs)
    ensures Maximal(link, gs[..|gs| - 1])
    ensures |Last(gs)| > 1 ==> Maximal(link, gs[..|gs| - 1] + [Last(gs)[..|Last(gs)| - 1]])
  {
    var g, init := Last(gs), gs[..|gs| - 1];
    assert g in gs && Chain(link, g);
    assert forall h :: h in init ==> h in gs;
    forall i, j | 0 <= i && j == i + 1 && j < |init| ensures Break(link, init[i], init[j]) {
      assert Break(link, gs[i], gs[j]);
    }
    if |g| > 1 {
      var r := init + [g[..|g| - 1]];
      forall i, j | 0 <= i && j == i + 1 && j < |r| ensures Break(link, r[i], r[j]) {
        assert Break(link, gs[i], gs[j]);
      }
    }
  }

  /** Every element of the list is in some group, and nothing else is. */
  lemma {:induction false} FlattenMembers<T>(gs: seq<seq<T>>, x: T)
    ensures x in Flatten(gs) <==> exists g :: g in gs && x in g
  {
    if gs == [] {
    } else {
      FlattenMembers(gs[..|gs| - 1], x);
      assert forall g :: g in gs <==> g in gs[..|gs| - 1] || g == Last(gs);
    }
  }
}
