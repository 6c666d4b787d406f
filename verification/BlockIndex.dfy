/**
 * The list of main-chain block ids, the thinned-out list a node sends to describe
 * its chain, and how far back that list can send a peer.
 */
module BlockIndex {
  import opened Powers
  import opened LedgerTypes

  predicate Unique(s: seq<Hash>) {
    forall i, j :: 0 <= i < j < |s| ==> s[i] != s[j]
  }

  // ---- the heights on the thinned-out list ----

  /** Heights top+1-step, top+1-2*step, top+1-4*step, ... down to the last that is not negative. */
  function Thinned(top: nat, step: nat): (s: seq<nat>)
    requires step > 0
    ensures forall i :: 0 <= i < |s| ==> s[i] <= top + 1 - step
    decreases top + 1 - step
  {
    if step > top + 1 then [] else [top + 1 - step] + Thinned(top, 2 * step)
  }

  /** The whole list: thinned out, and always ending in the genesis block. */
  function SparseHeights(top: nat): (heights: seq<nat>)
    ensures heights != [] && forall i :: 0 <= i < |heights| ==> heights[i] <= top
  {
    var s := Thinned(top, 1);
    if s[|s| - 1] == 0 then s else s + [0]
  }

  lemma {:induction false} ThinnedStep(top: nat, step: nat)
    requires step > 0
    ensures Thinned(top, step) == if step > top + 1 then [] else [top + 1 - step] + Thinned(top, 2 * step)
  {
  }

  lemma {:induction false} ThinnedMore(heights: seq<nat>, top: nat, step: nat)
    requires 0 < step <= top + 1
    ensures heights + Thinned(top, step) == heights + [top + 1 - step] + Thinned(top, 2 * step)
  {
    assert heights + ([top + 1 - step] + Thinned(top, 2 * step)) == heights + [top + 1 - step] + Thinned(top, 2 * step);
  }

  lemma {:induction false} ThinnedFalls(top: nat, step: nat)
    requires step > 0
    ensures var s := Thinned(top, step); forall i, j :: 0 <= i < j < |s| ==> s[i] > s[j]
    decreases top + 1 - step
  {
    hide Thinned;
    ThinnedStep(top, step);
    if step <= top + 1 {
      ThinnedFalls(top, 2 * step);
      var t := Thinned(top, 2 * step);
      assert forall i :: 0 <= i < |t| ==> t[i] < top + 1 - step;
    }
  }

  lemma {:induction false} ThinnedLength(top: nat, step: nat)
    requires step > 0
    ensures var n := |Thinned(top, step)|; n > 0 ==> step * Pow(2, n - 1) <= top + 1
    decreases top + 1 - step
  {
    if 2 * step <= top + 1 {
      ThinnedLength(top, 2 * step);
      var n := |Thinned(top, 2 * step)|;
      assert Pow(2, n) == 2 * Pow(2, n - 1);
      assert step * Pow(2, n) == 2 * step * Pow(2, n - 1);
    }
  }

  /** The list starts at the top, ends at genesis, falls strictly, and its length is logarithmic. */
  lemma {:induction false} SparseShape(top: nat)
    ensures var s := SparseHeights(top);
      && s[0] == top && s[|s| - 1] == 0
      && (forall i, j :: 0 <= i < j < |s| ==> s[i] > s[j])
      && (|s| >= 2 ==> Pow(2, |s| - 2) <= top + 1)
  {
    ThinnedFalls(top, 1);
    ThinnedLength(top, 1);
    var t := Thinned(top, 1);
    assert t[0] == top;
    if |t| >= 2 { assert Pow(2, |t| - 1) == 2 * Pow(2, |t| - 2); }
  }

  /** The first height on a list that is at most c. */
  function FirstAtMost(s: seq<nat>, c: nat): (i: nat)
    ensures i <= |s| && (forall k :: 0 <= k < i ==> s[k] > c) && (i < |s| ==> s[i] <= c)
  {
    if s == [] || s[0] <= c then 0 else 1 + FirstAtMost(s[1..], c)
  }

  lemma {:induction false} ThinnedAt(top: nat, step: nat, i: nat)
    requires step > 0 && i <= |Thinned(top, step)|
    ensures i < |Thinned(top, step)| ==> Thinned(top, step)[i] == top + 1 - step * Pow(2, i)
    ensures i == |Thinned(top, step)| ==> step * Pow(2, i) > top + 1
    decreases i
  {
    ThinnedStep(top, step);
    if i > 0 {
      ThinnedAt(top, 2 * step, i - 1);
      Associate(step, 2, Pow(2, i - 1));
    }
  }

  /** The heights listed: the given block's, then those 1, 3, 7, 15, ... below it, and genesis last. */
  lemma {:induction false} SparseHeightsAre(top: nat) returns (n: nat)
    ensures n > 0 && Pow(2, n - 1) <= top + 1 < Pow(2, n)
    ensures |SparseHeights(top)| == if Pow(2, n - 1) == top + 1 then n else n + 1
    ensures forall i :: 0 <= i < n ==> SparseHeights(top)[i] == top + 1 - Pow(2, i)
    ensures SparseHeights(top)[|SparseHeights(top)| - 1] == 0
  {
    hide Thinned, Pow;
    var s := Thinned(top, 1);
    n := |s|;
    ThinnedStep(top, 1);
    ThinnedAt(top, 1, n);
    ThinnedAt(top, 1, n - 1);
    forall i | 0 <= i < n
      ensures s[i] == top + 1 - Pow(2, i)
    {
      ThinnedAt(top, 1, i);
    }
  }

  /**
   * Walking down a thinned list that has not yet passed c: either it has an element at
   * most c that is not more than twice as far from the top, or all heights are that near.
   */
  lemma {:induction false} ThinnedReaches(top: nat, step: nat, c: nat)
    requires step > 0 && c <= top && (step == 1 || step <= 2 * (top - c))
    ensures var s := Thinned(top, step); var i := FirstAtMost(s, c);
      if i < |s| then top - s[i] <= 2 * (top - c) else top + 2 <= 2 * (top - c)
    decreases top + 1 - step
  {
    hide Thinned;
    ThinnedStep(top, step);
    if step <= top + 1 && top + 1 - step > c {
      ThinnedReaches(top, 2 * step, c);
      assert Thinned(top, step)[1..] == Thinned(top, 2 * step);
    }
  }

  lemma {:induction false} FirstAtMostAppend(s: seq<nat>, t: seq<nat>, c: nat)
    ensures FirstAtMost(s + t, c) == if FirstAtMost(s, c) < |s| then FirstAtMost(s, c) else |s| + FirstAtMost(t, c)
  {
    if s == [] {
      assert s + t == t;
    } else if s[0] > c {
      assert (s + t)[1..] == s[1..] + t;
      FirstAtMostAppend(s[1..], t, c);
    }
  }

  /** The list reaches at or below every height c, never more than twice as far from the top as c is. */
  lemma {:induction false} SparseReaches(top: nat, c: nat)
    requires c <= top
    ensures var s := SparseHeights(top); var i := FirstAtMost(s, c);
      i < |s| && s[i] <= c && top - s[i] <= 2 * (top - c)
  {
    var t := Thinned(top, 1);
    ThinnedReaches(top, 1, c);
    FirstAtMostAppend(t, [0], c);
    assert t[|t| - 1] == 0 ==> FirstAtMost(t, c) < |t|;
  }

  // ---- a list that starts on an alternative chain ----

  /** Heights from an alternative tip: thinned out over the alternative blocks, then over the main chain below the fork. */
  function ForkedHeights(top: nat, fork: nat): (heights: seq<nat>)
    requires fork < top
    ensures forall i :: 0 <= i < |heights| ==> heights[i] <= top
  {
    Raised(Thinned(top - fork - 1, 1), fork + 1) + SparseHeights(fork)
  }

  function Raised(s: seq<nat>, lift: nat): (t: seq<nat>)
    ensures |t| == |s| && forall i :: 0 <= i < |s| ==> t[i] == s[i] + lift
  {
    seq(|s|, i requires 0 <= i < |s| => s[i] + lift)
  }

  lemma {:induction false} FirstAtMostRaised(s: seq<nat>, lift: nat, c: nat)
    ensures FirstAtMost(Raised(s, lift), c) == if c >= lift then FirstAtMost(s, c - lift) else |s|
  {
    if s != [] {
      assert Raised(s, lift)[1..] == Raised(s[1..], lift);
      FirstAtMostRaised(s[1..], lift, c);
    }
  }

  /** The same bound holds for a list that starts on an alternative chain. */
  lemma {:induction false} ForkedReaches(top: nat, fork: nat, c: nat)
    requires fork < top && c <= top
    ensures var s := ForkedHeights(top, fork); var i := FirstAtMost(s, c);
      i < |s| && s[i] <= c && top - s[i] <= 2 * (top - c)
  {
    hide Thinned, SparseHeights, FirstAtMost;
    var n := top - fork - 1;
    var alt, main := Raised(Thinned(n, 1), fork + 1), SparseHeights(fork);
    FirstAtMostAppend(alt, main, c);
    FirstAtMostRaised(Thinned(n, 1), fork + 1, c);
    if c > fork {
      ThinnedReaches(n, 1, c - fork - 1);
      SparseShape(fork);
      assert FirstAtMost(main, c) == 0;
      if FirstAtMost(alt, c) < |alt| {
        assert ForkedHeights(top, fork)[FirstAtMost(alt, c)] == alt[FirstAtMost(alt, c)];
      } else {
        assert ForkedHeights(top, fork)[|alt|] == main[0];
      }
    } else {
      SparseReaches(fork, c);
    }
  }

  lemma {:induction false} ForkedFalls(top: nat, fork: nat)
    requires fork < top
    ensures var s := ForkedHeights(top, fork);
      && |s| >= 2 && s[0] == top && s[|s| - 1] == 0
      && (forall i, j :: 0 <= i < j < |s| ==> s[i] > s[j])
  {
    hide Thinned, SparseHeights, Pow;
    var n := top - fork - 1;
    var t := Thinned(n, 1);
    ThinnedStep(n, 1);
    ThinnedFalls(n, 1);
    SparseShape(fork);
    var s := ForkedHeights(top, fork);
    forall i, j | 0 <= i < j < |s| ensures s[i] > s[j] {
      if i < |t| <= j { assert s[i] > fork >= s[j]; }
    }
  }

  /** Two logarithmic lists in a row are logarithmic. */
  lemma {:induction false} ForkedLength(m: nat, n: nat, a: nat, b: nat, c: nat)
    requires m >= 1 && n >= 1 && m + n >= 3 && Pow(2, m - 1) <= a <= c && 1 <= b <= c
    requires n >= 2 ==> Pow(2, n - 2) <= b
    ensures Pow(2, m + n - 3) <= c * c
  {
    if n == 1 {
      PowMonotone(2, m - 2, m - 1);
      TimesMonotone(1, c, c);
    } else {
      PowAdd(2, m - 1, n - 2);
      var x, y := Pow(2, m - 1), Pow(2, n - 2);
      TimesMonotone(x, c, y);
      TimesMonotone(y, c, c);
    }
  }

  /** A list from an alternative tip starts there, ends at genesis, falls strictly, and its length is logarithmic. */
  lemma {:induction false} ForkedShape(top: nat, fork: nat)
    requires fork < top
    ensures var s := ForkedHeights(top, fork);
      && |s| >= 2 && s[0] == top && s[|s| - 1] == 0
      && (forall i, j :: 0 <= i < j < |s| ==> s[i] > s[j])
      && (|s| >= 3 ==> Pow(2, |s| - 3) <= (top + 1) * (top + 1))
  {
    hide Thinned, SparseHeights, Pow;
    ForkedFalls(top, fork);
    var n := top - fork - 1;
    ThinnedStep(n, 1);
    ThinnedLength(n, 1);
    SparseShape(fork);
    var s := ForkedHeights(top, fork);
    if |s| >= 3 { ForkedLength(|Thinned(n, 1)|, |SparseHeights(fork)|, top - fork, fork + 1, top + 1); }
  }

  // ---- two chains ----

  /** Two chains agree exactly up to height c. */
  ghost predicate CommonUpTo(mine: seq<Hash>, theirs: seq<Hash>, c: nat) {
    && c < |mine| && c < |theirs|
    && (forall h :: 0 <= h <= c ==> mine[h] == theirs[h])
    && (forall h :: c < h < |mine| ==> mine[h] !in theirs)
  }

  function IdsAt(chain: seq<Hash>, heights: seq<nat>): (ids: seq<Hash>)
    requires forall i :: 0 <= i < |heights| ==> heights[i] < |chain|
    ensures |ids| == |heights| && forall i :: 0 <= i < |ids| ==> ids[i] == chain[heights[i]]
  {
    seq(|heights|, i requires 0 <= i < |heights| => chain[heights[i]])
  }

  ghost predicate Lists(path: seq<Hash>, heights: seq<nat>, ids: seq<Hash>) {
    (forall i :: 0 <= i < |heights| ==> heights[i] < |path|) && ids == IdsAt(path, heights)
  }

  /** offset is where the first known id of the list stands. */
  ghost predicate FirstKnown(container: seq<Hash>, ids: seq<Hash>, offset: nat)
    requires offset < |container|
  {
    exists i :: 0 <= i < |ids| && container[offset] == ids[i] && forall k :: 0 <= k < i ==> ids[k] !in container
  }

  /**
   * The ancestry of a block on an alternative chain: main-chain ids up to the fork, then
   * alternative blocks, each recording the one before it as its previous block.
   */
  ghost predicate Ancestry(container: seq<Hash>, previous: map<Hash, Hash>, path: seq<Hash>, fork: nat) {
    && fork + 1 < |path| && fork < |container|
    && path[..fork + 1] == container[..fork + 1]
    && path[fork] !in previous && path[|path| - 1] !in container
    && forall h :: fork < h < |path| ==> path[h] in previous && previous[path[h]] == path[h - 1]
  }

  lemma {:induction false} ListsMain(container: seq<Hash>, path: seq<Hash>, ids: seq<Hash>)
    requires path != [] && path <= container
    requires ids == IdsAt(container, SparseHeights(|path| - 1))
    ensures Listing(|path| - 1, SparseHeights(|path| - 1)) && Lists(path, SparseHeights(|path| - 1), ids)
  {
    hide SparseHeights;
  }

  lemma {:induction false} ListsFork(container: seq<Hash>, path: seq<Hash>, fork: nat, chain: seq<Hash>, thin: seq<Hash>, main: seq<Hash>)
    requires fork + 1 < |path| && fork < |container| && path[..fork + 1] == container[..fork + 1]
    requires |chain| == |path| - 1 - fork && forall i :: 0 <= i < |chain| ==> chain[i] == path[|path| - 1 - i]
    requires |thin| == |Thinned(|chain| - 1, 1)|
    requires forall i :: 0 <= i < |thin| ==> thin[i] == chain[|chain| - 1 - Thinned(|chain| - 1, 1)[i]]
    requires main == IdsAt(container, SparseHeights(fork))
    ensures Listing(|path| - 1, ForkedHeights(|path| - 1, fork))
    ensures Lists(path, ForkedHeights(|path| - 1, fork), thin + main)
  {
    hide SparseHeights, Thinned;
    var t, heights := Thinned(|chain| - 1, 1), ForkedHeights(|path| - 1, fork);
    assert forall h :: 0 <= h <= fork ==> path[h] == path[..fork + 1][h] == container[h];
    forall i | 0 <= i < |heights|
      ensures (thin + main)[i] == path[heights[i]]
    {
      if i < |t| {
        assert heights[i] == t[i] + fork + 1;
      } else {
        assert heights[i] == SparseHeights(fork)[i - |t|];
      }
    }
    assert thin + main == IdsAt(path, heights);
  }

  /** The genesis id is added exactly when the list does not end in it already. */
  lemma {:induction false} SparseEnds(container: seq<Hash>, top: nat)
    requires Unique(container) && top < |container|
    ensures var ids := IdsAt(container, Thinned(top, 1));
      && ids != []
      && IdsAt(container, SparseHeights(top)) == if ids[|ids| - 1] != container[0] then ids + [container[0]] else ids
  {
    var heights := Thinned(top, 1);
    var ids := IdsAt(container, heights);
    assert ids[|ids| - 1] == container[heights[|heights| - 1]];
    assert heights[|heights| - 1] != 0 ==> ids + [container[0]] == IdsAt(container, heights + [0]);
  }

  class Index {
    var container: seq<Hash>

    ghost predicate Valid()
      reads this
    {
      Unique(container)
    }

    constructor ()
      ensures Valid() && container == []
    {
      container := [];
    }

    method Pop()
      requires Valid() && container != []
      modifies this
      ensures Valid() && container == old(container)[..|old(container)| - 1]
    {
      container := container[..|container| - 1];
    }

    /** Returns whether the id was new; a known id is not inserted again. */
    method Push(h: Hash) returns (inserted: bool)
      requires Valid()
      modifies this
      ensures Valid() && inserted == (h !in old(container))
      ensures container == if inserted then old(container) + [h] else old(container)
    {
      inserted := h !in container;
      if inserted {
        container := container + [h];
      }
    }

    method GetBlockHeight(h: Hash) returns (found: bool, height: nat)
      requires Valid()
      ensures found == (h in container)
      ensures found ==> height < |container| && container[height] == h
    {
      height := 0;
      while height < |container|
        invariant height <= |container| && h !in container[..height]
      {
        if container[height] == h {
          return true, height;
        }
        height := height + 1;
      }
      found := false;
    }

    method GetBlockIds(start: nat, maxCount: nat) returns (ids: seq<Hash>)
      ensures var n := |container|;
        ids == if start >= n then [] else container[start..if maxCount < n - start then start + maxCount else n]
    {
      ids := [];
      if start >= |container| {
        return;
      }
      var count := if maxCount < |container| - start then maxCount else |container| - start;
      for i := 0 to count
        invariant ids == container[start..start + i]
      {
        ids := ids + [container[start + i]];
      }
    }

    /** The height of the first listed id that is in this index. */
    method FindSupplement(ids: seq<Hash>) returns (found: bool, offset: nat)
      requires Valid()
      ensures found == exists i :: 0 <= i < |ids| && ids[i] in container
      ensures found ==> offset < |container| && FirstKnown(container, ids, offset)
    {
      offset := 0;
      for i := 0 to |ids|
        invariant forall k :: 0 <= k < i ==> ids[k] !in container
      {
        found, offset := GetBlockHeight(ids[i]);
        if found {
          return;
        }
      }
      found := false;
    }

    method BuildSparseChain(startBlockId: Hash) returns (result: seq<Hash>)
      requires Valid() && startBlockId in container
      ensures forall top :: 0 <= top < |container| && container[top] == startBlockId ==>
        result == IdsAt(container, SparseHeights(top))
    {
      hide Thinned, SparseHeights, IdsAt;
      var _, top := GetBlockHeight(startBlockId);
      result := ThinIds(container, top);
      SparseEnds(container, top);
      if result[|result| - 1] != container[0] {
        result := result + [container[0]];
      }
      assert forall h :: 0 <= h < |container| && container[h] == startBlockId ==> h == top;
    }

    /** The ids at top, top - 1, top - 3, top - 7, ... */
    static method ThinIds(ids: seq<Hash>, top: nat) returns (thin: seq<Hash>)
      requires top < |ids|
      ensures thin == IdsAt(ids, Thinned(top, 1))
    {
      hide Thinned, IdsAt;
      var end := top + 1;
      thin := [];
      var i: int := 1;
      ghost var heights: seq<nat> := [];
      while i <= end
        invariant i >= 1 && Thinned(top, 1) == heights + Thinned(top, i)
        invariant |thin| == |heights| && forall k :: 0 <= k < |thin| ==> heights[k] <= top && thin[k] == ids[heights[k]]
        decreases end - i
      {
        ThinnedMore(heights, top, i);
        thin := thin + [ids[end - i]];
        heights := heights + [end - i];
        i := 2 * i;
      }
      ThinnedStep(top, i);
      assert Thinned(top, 1) == heights;
    }

    /** The list for any known block; previous gives the parents of the alternative blocks. */
    method DoBuildSparseChain(startBlockId: Hash, previous: map<Hash, Hash>, ghost path: seq<Hash>, ghost fork: nat)
      returns (sparseChain: seq<Hash>)
      requires Valid() && path != [] && path[|path| - 1] == startBlockId
      requires path <= container || Ancestry(container, previous, path, fork)
      ensures exists heights :: Listing(|path| - 1, heights) && Lists(path, heights, sparseChain)
    {
      hide Thinned, SparseHeights, Listing, Lists;
      ghost var top := |path| - 1;
      if startBlockId in container {
        sparseChain := BuildSparseChain(startBlockId);
        ListsMain(container, path, sparseChain);
      } else {
        var alternativeChain, ancestor := CollectAlternatives(startBlockId, previous, path, fork);
        sparseChain := ThinOut(alternativeChain);
        var main := BuildSparseChain(ancestor);
        ListsFork(container, path, fork, alternativeChain, sparseChain, main);
        sparseChain := sparseChain + main;
      }
    }

    /** Walks the alternative blocks down to the first block that is not one. */
    method CollectAlternatives(startBlockId: Hash, previous: map<Hash, Hash>, ghost path: seq<Hash>, ghost fork: nat)
      returns (alternativeChain: seq<Hash>, ancestor: Hash)
      requires Ancestry(container, previous, path, fork) && path[|path| - 1] == startBlockId
      ensures ancestor == path[fork] && |alternativeChain| == |path| - 1 - fork
      ensures forall i :: 0 <= i < |alternativeChain| ==> alternativeChain[i] == path[|path| - 1 - i]
    {
      alternativeChain := [];
      ancestor := startBlockId;
      while ancestor in previous
        invariant |alternativeChain| <= |path| - 1 - fork && ancestor == path[|path| - 1 - |alternativeChain|]
        invariant forall i :: 0 <= i < |alternativeChain| ==> alternativeChain[i] == path[|path| - 1 - i]
        decreases |path| - |alternativeChain|
      {
        alternativeChain := alternativeChain + [ancestor];
        ancestor := previous[ancestor];
      }
    }

    /** Keeps the entries number 1, 2, 4, ... */
    static method ThinOut(chain: seq<Hash>) returns (thin: seq<Hash>)
      requires chain != []
      ensures |thin| == |Thinned(|chain| - 1, 1)|
      ensures forall i :: 0 <= i < |thin| ==> thin[i] == chain[|chain| - 1 - Thinned(|chain| - 1, 1)[i]]
    {
      hide Thinned;
      var top := |chain| - 1;
      thin := [];
      var i: int := 1;
      ghost var heights: seq<nat> := [];
      while i <= |chain|
        invariant i >= 1 && Thinned(top, 1) == heights + Thinned(top, i)
        invariant |thin| == |heights| && forall k :: 0 <= k < |heights| ==> heights[k] <= top && thin[k] == chain[top - heights[k]]
        decreases |chain| - i
      {
        ThinnedMore(heights, top, i);
        thin := thin + [chain[i - 1]];
        heights := heights + [top + 1 - i];
        i := 2 * i;
      }
      ThinnedStep(top, i);
      assert Thinned(top, 1) == heights;
    }

    /** Answers a peer's list: where to start, and the ids from there on. */
    method FindBlockchainSupplement(remoteIds: seq<Hash>, maxCount: nat) returns (start: nat, ids: seq<Hash>)
      requires Valid() && container != [] && remoteIds != [] && remoteIds[|remoteIds| - 1] == container[0]
      ensures start < |container| && FirstKnown(container, remoteIds, start)
      ensures maxCount > 0 ==> ids != [] && ids[0] == container[start]
      ensures ids <= container[start..] && (|ids| == maxCount || ids == container[start..])
    {
      assert remoteIds[|remoteIds| - 1] in container;
      var found;
      found, start := FindSupplement(remoteIds);
      ids := GetBlockIds(start, maxCount);
    }
  }

  /** The heights one's own list can have: from a main-chain block, or from a block on a fork. */
  ghost predicate Listing(top: nat, heights: seq<nat>) {
    heights == SparseHeights(top) || exists fork: nat :: fork < top && heights == ForkedHeights(top, fork)
  }

  lemma {:induction false} ListingReaches(top: nat, heights: seq<nat>, c: nat)
    requires Listing(top, heights) && c <= top
    ensures var i := FirstAtMost(heights, c); i < |heights| && heights[i] <= c && top - heights[i] <= 2 * (top - c)
    ensures forall i :: 0 <= i < |heights| ==> heights[i] <= top
  {
    if heights == SparseHeights(top) {
      SparseReaches(top, c);
    } else {
      var fork: nat :| fork < top && heights == ForkedHeights(top, fork);
      ForkedReaches(top, fork, c);
    }
  }

  /**
   * A peer that shares this node's chain up to height c answers the list with a block
   * both have, never more than twice as far below this node's tip as c is.
   */
  lemma {:induction false} SupplementIsNear(mine: seq<Hash>, theirs: seq<Hash>, c: nat, ids: seq<Hash>, heights: seq<nat>)
    requires Unique(theirs) && CommonUpTo(mine, theirs, c) && Listing(|mine| - 1, heights)
    requires Lists(mine, heights, ids)
    ensures exists i :: 0 <= i < |ids| && ids[i] in theirs
    ensures forall offset: nat :: offset < |theirs| && FirstKnown(theirs, ids, offset) ==>
      offset <= c && theirs[offset] == mine[offset] && |mine| - 1 - offset <= 2 * (|mine| - 1 - c)
  {
    hide Listing, FirstAtMost;
    ListingReaches(|mine| - 1, heights, c);
    var j := FirstAtMost(heights, c);
    assert ids[j] == mine[heights[j]] == theirs[heights[j]];
    forall offset: nat | offset < |theirs| && FirstKnown(theirs, ids, offset)
      ensures offset == heights[j]
    {
      var i :| 0 <= i < |ids| && theirs[offset] == ids[i] && forall k :: 0 <= k < i ==> ids[k] !in theirs;
      assert ids[i] == mine[heights[i]];
      assert heights[i] <= c;
      assert i == j;
    }
  }
}
