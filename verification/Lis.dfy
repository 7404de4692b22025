/** The longest non-decreasing subsequence that the inversion pass keeps. */
module Lis {

  ghost predicate TotalPreorder<T(!new)>(le: (T, T) -> bool) {
    && (forall x, y :: le(x, y) || le(y, x))
    && (forall x, y, z :: le(x, y) && le(y, z) ==> le(x, z))
  }

  ghost predicate Ascending<T>(le: (T, T) -> bool, s: seq<T>) {
    forall i, j :: 0 <= i < j < |s| ==> le(s[i], s[j])
  }

  /** `keep` picks positions of `s` whose values never decrease from left to right. */
  ghost predicate Backbone<T>(le: (T, T) -> bool, s: seq<T>, keep: set<nat>) {
    && (forall i :: i in keep ==> i < |s|)
    && (forall i, j :: i in keep && j in keep && i < j ==> le(s[i], s[j]))
  }

  /** No backbone has more positions than `keep`. */
  ghost predicate LongestBackbone<T>(le: (T, T) -> bool, s: seq<T>, keep: set<nat>) {
    Backbone(le, s, keep) && forall other: set<nat> :: Backbone(le, s, other) ==> |other| <= |keep|
  }

  /** `bisect.bisect_right`: how many leading entries are at most `value`. */
  function BisectRight<T(!new)>(le: (T, T) -> bool, tails: seq<T>, value: T): (place: nat)
    requires TotalPreorder(le) && Ascending(le, tails)
    ensures place <= |tails|
    ensures forall k :: 0 <= k < place ==> le(tails[k], value)
    ensures forall k :: place <= k < |tails| ==> !le(tails[k], value)
  {
    if tails == [] then 0
    else
      var last := |tails| - 1;
      if le(tails[last], value) then |tails| else BisectRight(le, tails[..last], value)
  }

  /** Ranks that strictly increase along a set bound its size. */
  lemma {:induction false} RankBound(rank: seq<nat>, picks: set<nat>, m: nat)
    requires forall i :: i in picks ==> i < |rank| && rank[i] < m
    requires forall i, j :: i in picks && j in picks && i < j ==> rank[i] < rank[j]
    ensures |picks| <= m
  {
    if m == 0 {
      assert picks == {};
    } else if i :| i in picks && rank[i] == m - 1 {
      var rest := picks - {i};
      forall j | j in rest ensures rank[j] < m - 1 {
        assert i < j || j < i;
      }
      RankBound(rank, rest, m - 1);
    } else {
      RankBound(rank, picks, m - 1);
    }
  }

  /** `p` is the predecessor of position `i`: one rank lower, earlier and no larger. */
  ghost predicate Predecessor<T>(le: (T, T) -> bool, s: seq<T>, rank: seq<nat>, p: int, i: nat)
    requires i < |rank| <= |s|
  {
    if rank[i] == 0 then p == -1
    else 0 <= p < i && rank[p] == rank[i] - 1 && le(s[p], s[i])
  }

  /** Pile `k` ends in the value at `tailsIdx[k]`, which has rank `k`. */
  ghost predicate Tops<T>(s: seq<T>, rank: seq<nat>, tails: seq<T>, tailsIdx: seq<nat>) {
    && |rank| <= |s| && |tails| == |tailsIdx|
    && forall k :: 0 <= k < |tailsIdx| ==>
         tailsIdx[k] < |rank| && rank[tailsIdx[k]] == k && s[tailsIdx[k]] == tails[k]
  }

  /** No value seen is smaller than the top of its pile. */
  ghost predicate AboveTops<T>(le: (T, T) -> bool, s: seq<T>, rank: seq<nat>, tails: seq<T>)
    requires |rank| <= |s|
  {
    forall i :: 0 <= i < |rank| ==> rank[i] < |tails| && le(tails[rank[i]], s[i])
  }

  /** Along any non-decreasing pair the rank strictly increases. */
  ghost predicate RankClimbs<T>(le: (T, T) -> bool, s: seq<T>, rank: seq<nat>)
    requires |rank| <= |s|
  {
    forall i, j :: 0 <= i < j < |rank| && le(s[i], s[j]) ==> rank[i] < rank[j]
  }

  lemma RankStep<T(!new)>(le: (T, T) -> bool, s: seq<T>, rank: seq<nat>, tails: seq<T>)
    requires TotalPreorder(le) && Ascending(le, tails) && |rank| < |s|
    requires AboveTops(le, s, rank, tails) && RankClimbs(le, s, rank)
    ensures RankClimbs(le, s, rank + [BisectRight(le, tails, s[|rank|])])
  {
    var value := s[|rank|];
    var place := BisectRight(le, tails, value);
    forall i | 0 <= i < |rank| && le(s[i], value) ensures rank[i] < place {
      assert le(tails[rank[i]], s[i]);
      assert le(tails[rank[i]], value);
    }
  }

  lemma ReplaceTop<T(!new)>(le: (T, T) -> bool, tails: seq<T>, value: T, place: nat)
    requires TotalPreorder(le) && Ascending(le, tails)
    requires place == BisectRight(le, tails, value) < |tails|
    ensures Ascending(le, tails[place := value]) && le(value, tails[place])
  {
    assert le(value, tails[place]);
    forall j | place < j < |tails| ensures le(value, tails[j]) {
      assert le(tails[place], tails[j]);
    }
  }

  lemma StillAbove<T(!new)>(le: (T, T) -> bool, s: seq<T>, rank: seq<nat>, tails: seq<T>, place: nat)
    requires TotalPreorder(le) && |rank| < |s| && AboveTops(le, s, rank, tails)
    requires place < |tails| && le(s[|rank|], tails[place])
    ensures AboveTops(le, s, rank + [place], tails[place := s[|rank|]])
  {
    assert le(s[|rank|], s[|rank|]);
    forall i | 0 <= i < |rank| ensures le(tails[place := s[|rank|]][rank[i]], s[i]) {
      assert le(tails[rank[i]], s[i]);
    }
  }

  lemma AscendingSnoc<T(!new)>(le: (T, T) -> bool, tails: seq<T>, value: T)
    requires Ascending(le, tails) && forall k :: 0 <= k < |tails| ==> le(tails[k], value)
    ensures Ascending(le, tails + [value])
  {
  }

  lemma AboveSnoc<T(!new)>(le: (T, T) -> bool, s: seq<T>, rank: seq<nat>, tails: seq<T>)
    requires |rank| < |s| && AboveTops(le, s, rank, tails) && le(s[|rank|], s[|rank|])
    ensures AboveTops(le, s, rank + [|tails|], tails + [s[|rank|]])
  {
    var rank', tails' := rank + [|tails|], tails + [s[|rank|]];
    forall i | 0 <= i < |rank'| ensures rank'[i] < |tails'| && le(tails'[rank'[i]], s[i]) {
      if i < |rank| {
        assert le(tails[rank[i]], s[i]);
        assert tails'[rank[i]] == tails[rank[i]];
      }
    }
  }

  lemma PushTop<T(!new)>(le: (T, T) -> bool, s: seq<T>, rank: seq<nat>, tails: seq<T>)
    requires TotalPreorder(le) && Ascending(le, tails)
    requires |rank| < |s| && AboveTops(le, s, rank, tails)
    requires BisectRight(le, tails, s[|rank|]) == |tails|
    ensures Ascending(le, tails + [s[|rank|]])
    ensures AboveTops(le, s, rank + [|tails|], tails + [s[|rank|]])
  {
    var value := s[|rank|];
    assert forall k :: 0 <= k < |tails| ==> le(tails[k], value);
    AscendingSnoc(le, tails, value);
    AboveSnoc(le, s, rank, tails);
  }

  /** Every value's predecessor link is right. */
  ghost predicate Chained<T>(le: (T, T) -> bool, s: seq<T>, rank: seq<nat>, prev: seq<int>) {
    && |rank| <= |s| == |prev|
    && forall i :: 0 <= i < |rank| ==> Predecessor(le, s, rank, prev[i], i)
  }

  lemma ChainStep<T(!new)>(le: (T, T) -> bool, s: seq<T>, rank: seq<nat>, prev: seq<int>, place: nat, p: int)
    requires Chained(le, s, rank, prev) && |rank| < |s|
    requires if place == 0 then p == -1 else 0 <= p < |rank| && rank[p] == place - 1 && le(s[p], s[|rank|])
    ensures Chained(le, s, rank + [place], prev[|rank| := p])
  {
    var rank', prev' := rank + [place], prev[|rank| := p];
    forall i | 0 <= i < |rank'| ensures Predecessor(le, s, rank', prev'[i], i) {
      if i < |rank| {
        assert Predecessor(le, s, rank, prev[i], i);
      }
    }
  }

  /** Everything the scan knows after `|rank|` values. */
  ghost predicate Scanned<T>(le: (T, T) -> bool, s: seq<T>, rank: seq<nat>,
                             tails: seq<T>, tailsIdx: seq<nat>, prev: seq<int>) {
    && Ascending(le, tails)
    && Tops(s, rank, tails, tailsIdx)
    && AboveTops(le, s, rank, tails)
    && RankClimbs(le, s, rank)
    && Chained(le, s, rank, prev)
  }

  lemma {:induction false} ScanNew<T(!new)>(le: (T, T) -> bool, s: seq<T>, rank: seq<nat>,
                         tails: seq<T>, tailsIdx: seq<nat>, prev: seq<int>)
    requires TotalPreorder(le) && Scanned(le, s, rank, tails, tailsIdx, prev) && |rank| < |s|
    requires BisectRight(le, tails, s[|rank|]) == |tails|
    ensures var tailsIdx' := tailsIdx + [|rank|];
            Scanned(le, s, rank + [|tails|], tails + [s[|rank|]], tailsIdx',
                    prev[|rank| := if |tails| > 0 then tailsIdx'[|tails| - 1] else -1])
  {
    RankStep(le, s, rank, tails);
    PushTop(le, s, rank, tails);
    ChainStep(le, s, rank, prev, |tails|, if |tails| > 0 then tailsIdx[|tails| - 1] else -1);
  }

  lemma {:induction false} ScanOld<T(!new)>(le: (T, T) -> bool, s: seq<T>, rank: seq<nat>,
                         tails: seq<T>, tailsIdx: seq<nat>, prev: seq<int>, place: nat)
    requires TotalPreorder(le) && Scanned(le, s, rank, tails, tailsIdx, prev) && |rank| < |s|
    requires BisectRight(le, tails, s[|rank|]) == place < |tails|
    ensures var tailsIdx' := tailsIdx[place := |rank|];
            Scanned(le, s, rank + [place], tails[place := s[|rank|]], tailsIdx',
                    prev[|rank| := if place > 0 then tailsIdx'[place - 1] else -1])
  {
    RankStep(le, s, rank, tails);
    ReplaceTop(le, tails, s[|rank|], place);
    StillAbove(le, s, rank, tails, place);
    ChainStep(le, s, rank, prev, place, if place > 0 then tailsIdx[place - 1] else -1);
  }

  /** Indices of one longest non-decreasing subsequence. */
  method LisKeep<T(!new)>(le: (T, T) -> bool, s: seq<T>) returns (keep: set<nat>)
    requires TotalPreorder(le)
    ensures LongestBackbone(le, s, keep)
  {
    var tails: seq<T> := [];
    var tailsIdx: seq<nat> := [];
    var prev: seq<int> := seq(|s|, _ => -1);
    ghost var rank: seq<nat> := [];
    for index := 0 to |s|
      invariant |rank| == index
      invariant Scanned(le, s, rank, tails, tailsIdx, prev)
    {
      var value := s[index];
      var place := BisectRight(le, tails, value);
      if place == |tails| {
        ScanNew(le, s, rank, tails, tailsIdx, prev);
        tails, tailsIdx := tails + [value], tailsIdx + [index];
      } else {
        ScanOld(le, s, rank, tails, tailsIdx, prev, place);
        tails, tailsIdx := tails[place := value], tailsIdx[place := index];
      }
      prev := prev[index := if place > 0 then tailsIdx[place - 1] else -1];
      rank := rank + [place];
    }
    keep := TraceBack(le, s, rank, prev, if tailsIdx != [] then tailsIdx[|tailsIdx| - 1] else -1);
    NoLongerBackbone(le, s, rank, tails, |keep|);
  }

  /** Collect the chain of predecessors that ends at `last`. */
  method TraceBack<T(!new)>(le: (T, T) -> bool, s: seq<T>, ghost rank: seq<nat>, prev: seq<int>, last: int)
      returns (keep: set<nat>)
    requires TotalPreorder(le) && |rank| == |s| && -1 <= last < |s| && Chained(le, s, rank, prev)
    ensures Backbone(le, s, keep) && |keep| == if last == -1 then 0 else rank[last] + 1
  {
    keep := {};
    var cursor := last;
    ghost var total := if last == -1 then 0 else rank[last] + 1;
    while cursor != -1
      invariant Traced(le, s, rank, keep, cursor, total)
      decreases cursor
    {
      TraceStep(le, s, rank, prev, keep, cursor, total);
      var position: nat := cursor;
      keep := keep + {position};
      cursor := prev[cursor];
    }
  }

  /** Walking back from the last pile: `keep` is a backbone and the rest of the chain has one position per rank. */
  ghost predicate Traced<T>(le: (T, T) -> bool, s: seq<T>, rank: seq<nat>, keep: set<nat>, cursor: int, total: nat) {
    && |rank| == |s| && -1 <= cursor < |s|
    && Backbone(le, s, keep)
    && (cursor != -1 ==> forall i :: i in keep ==> cursor < i && le(s[cursor], s[i]))
    && |keep| + (if cursor == -1 then 0 else rank[cursor] + 1) == total
  }

  lemma TraceStep<T(!new)>(le: (T, T) -> bool, s: seq<T>, rank: seq<nat>, prev: seq<int>,
                           keep: set<nat>, cursor: int, total: nat)
    requires TotalPreorder(le) && Chained(le, s, rank, prev) && cursor != -1
    requires Traced(le, s, rank, keep, cursor, total)
    ensures prev[cursor] < cursor && Traced(le, s, rank, keep + {cursor}, prev[cursor], total)
  {
    assert Predecessor(le, s, rank, prev[cursor], cursor);
  }

  lemma NoLongerBackbone<T(!new)>(le: (T, T) -> bool, s: seq<T>, rank: seq<nat>, tails: seq<T>, n: nat)
    requires |rank| == |s| && |tails| == n && AboveTops(le, s, rank, tails) && RankClimbs(le, s, rank)
    ensures forall other: set<nat> :: Backbone(le, s, other) ==> |other| <= n
  {
    forall other: set<nat> | Backbone(le, s, other) ensures |other| <= n {
      RankBound(rank, other, n);
    }
  }

  function Positions(n: nat): (all: set<nat>)
    ensures |all| == n
    ensures forall i: nat :: i in all <==> i < n
  {
    if n == 0 then {} else Positions(n - 1) + {n - 1}
  }

  /** A list already in order is its own longest backbone. */
  lemma WholeListKept<T(!new)>(le: (T, T) -> bool, s: seq<T>, keep: set<nat>)
    requires LongestBackbone(le, s, keep)
    requires Ascending(le, s)
    ensures keep == Positions(|s|)
  {
    var all := Positions(|s|);
    assert Backbone(le, s, all);
    assert all == keep + (all - keep);
    assert |all| == |keep| + |all - keep|;
    assert all - keep == {};
  }
}
