/**
 * Alternative chains: where they attach, and the difficulty computed for their
 * blocks by a second, differently shaped routine.
 */
module Forks {
  import opened LedgerTypes
  import opened Validation
  import opened ChainFacts

  // ---- the window for an alternative block ----

  /**
   * get_next_difficulty_for_alternative_chain: the tail of the alternative chain,
   * topped up with blocks of the main chain below `stop` when it is too short.
   */
  function AltWindow(main: seq<Link>, alt: seq<Link>, stop: nat, count: nat): seq<Link>
    requires stop <= |main|
  {
    if |alt| < count then
      var wanted := count - |alt|;
      var mainCount := if wanted < stop then wanted else stop;
      var start := if stop == mainCount then 1 else stop - mainCount;
      (if start < stop then main[start..stop] else []) + alt
    else alt[|alt| - count..]
  }

  /** The main-chain routine would pick the same window once the alternative chain is connected. */
  lemma {:induction false} WindowsAgree(main: seq<Link>, alt: seq<Link>, stop: nat, count: nat)
    requires 1 <= stop <= |main| && count > 0
    ensures AltWindow(main, alt, stop, count) == Window(main[..stop] + alt, count)
  {
    var below := main[..stop];
    var whole := below + alt;
    if |alt| < count {
      var wanted := count - |alt|;
      var start := if stop <= wanted then 1 else stop - wanted;
      assert 1 <= start <= stop;
      assert Window(whole, count) == if start < |whole| then whole[start..] else [];
      assert whole[start..] == below[start..] + alt;
      assert below[start..] == main[start..stop];
    } else {
      var from := |alt| - count;
      assert Window(whole, count) == whole[stop + from..];
      assert whole[stop + from..] == alt[from..];
    }
  }

  /** Two window sizes pick the same blocks exactly when the shorter is no shorter than the chain without genesis. */
  lemma {:induction false} WindowsEqualIff<T>(s: seq<T>, c: nat, c': nat)
    requires s != []
    ensures Window(s, c) == Window(s, c') <==> c == c' || (c >= |s| - 1 && c' >= |s| - 1)
  {
    assert |Window(s, c)| == if c < |s| - 1 then c else |s| - 1;
    assert |Window(s, c')| == if c' < |s| - 1 then c' else |s| - 1;
  }

  function AltDifficulty(r: Rules, blocks: seq<BlockEntry>, chain: seq<BlockEntry>, height: nat): nat
    requires (if chain == [] then height else chain[0].height) <= |blocks|
  {
    DifficultyFrom(r, |blocks|, ForkWindow(r, blocks, chain, height))
  }

  /** The window the alternative routine picks: sized by the version at the main chain's size. */
  function ForkWindow(r: Rules, blocks: seq<BlockEntry>, chain: seq<BlockEntry>, height: nat): seq<Link>
    requires (if chain == [] then height else chain[0].height) <= |blocks|
  {
    var stop := if chain == [] then height else chain[0].height;
    AltWindow(Links(blocks), Links(chain), stop, DifficultyCount(r, VersionAt(r, |blocks|)))
  }

  /** What the difficulty formula is given: which formula it is, the timestamps and the cumulative difficulties. */
  function Asked(r: Rules, size: nat, w: seq<Link>): (bool, seq<nat>, seq<nat>) {
    (VersionAt(r, size + 1) >= 3, Timestamps(w), Difficulties(w))
  }

  /** On chains of these two sizes the same formula is in force, and the two window sizes reach equally far. */
  predicate SameRegime(r: Rules, size: nat, height: nat) {
    var c, c' := DifficultyCount(r, VersionAt(r, size)), DifficultyCount(r, VersionAt(r, height));
    && (VersionAt(r, size + 1) >= 3 <==> VersionAt(r, height + 1) >= 3)
    && (c == c' || (c + 1 >= height && c' + 1 >= height))
  }

  /**
   * The alternative routine asks the formula exactly what the main-chain routine would ask
   * once the fork is connected, if and only if the same rules are in force at the main
   * chain's size and at the block's own height.
   */
  lemma {:induction false} AltAsksTheSameIff(r: Rules, blocks: seq<BlockEntry>, chain: seq<BlockEntry>, height: nat)
    requires var stop := if chain == [] then height else chain[0].height;
      1 <= stop <= |blocks| && height == stop + |chain|
    requires r.oldDifficultyCount > 0
    ensures var stop := if chain == [] then height else chain[0].height;
      var whole := Links(blocks[..stop] + chain);
      Asked(r, |blocks|, ForkWindow(r, blocks, chain, height)) ==
        Asked(r, height, Window(whole, DifficultyCount(r, VersionAt(r, height))))
      <==> SameRegime(r, |blocks|, height)
  {
    hide Links, Timestamps, Difficulties, Window, AltWindow;
    var stop := if chain == [] then height else chain[0].height;
    var c, c' := DifficultyCount(r, VersionAt(r, |blocks|)), DifficultyCount(r, VersionAt(r, height));
    var whole := Links(blocks[..stop] + chain);
    assert whole == Links(blocks)[..stop] + Links(chain);
    WindowsAgree(Links(blocks), Links(chain), stop, c);
    WindowsEqualIff(whole, c, c');
    WindowLengths(whole, c, c');
  }

  /** Windows of one chain that differ differ in length. */
  lemma {:induction false} WindowLengths<T>(s: seq<T>, c: nat, c': nat)
    requires s != []
    ensures |Window(s, c)| == |Window(s, c')| ==> Window(s, c) == Window(s, c')
  {
    assert |Window(s, c)| == if c < |s| - 1 then c else |s| - 1;
    assert |Window(s, c')| == if c' < |s| - 1 then c' else |s| - 1;
  }

  /** So under the same rules the alternative block gets the difficulty it would get on the main chain. */
  lemma {:induction false} AltDifficultyAgrees(r: Rules, blocks: seq<BlockEntry>, chain: seq<BlockEntry>, height: nat)
    requires var stop := if chain == [] then height else chain[0].height;
      1 <= stop <= |blocks| && height == stop + |chain|
    requires r.oldDifficultyCount > 0 && SameRegime(r, |blocks|, height)
    ensures var stop := if chain == [] then height else chain[0].height;
      AltDifficulty(r, blocks, chain, height) == DifficultyAfter(r, Links(blocks[..stop] + chain))
  {
    hide Window, ForkWindow, Timestamps, Difficulties;
    AltAsksTheSameIff(r, blocks, chain, height);
  }

  /** The configured upgrade heights, and what the two formulas answer for a chain that has only its genesis block. */
  predicate Configured(r: Rules) {
    && r.upgradeV2 == 1 && r.upgradeV3 == 2 && r.oldDifficultyCount == 735
    && r.nextDifficulty(true, [], []) == 100 && r.nextDifficulty(false, [], []) == 1
  }

  /** Under the configured heights the rules differ for a fork that starts at the first block after genesis, and for no other. */
  lemma {:induction false} ConfiguredRegimes(r: Rules, size: nat, height: nat)
    requires Configured(r) && size >= 3 && height >= 1
    ensures SameRegime(r, size, height) <==> height >= 2
  {
  }

  /** There the two routines do differ: the fork's first block is asked for difficulty 100, the main chain's for 1. */
  lemma {:induction false} FirstBlockDiffers(r: Rules, blocks: seq<BlockEntry>)
    requires Configured(r) && |blocks| >= 3
    ensures AltDifficulty(r, blocks, [], 1) == 100 && DifficultyAfter(r, Links(blocks[..1])) == 1
  {
    var count := DifficultyCount(r, VersionAt(r, |blocks|));
    assert AltWindow(Links(blocks), Links([]), 1, count) == [];
    assert Window(Links(blocks[..1]), 735) == [];
    assert Timestamps([]) == [] && Difficulties([]) == [];
  }

  // ---- chains of blocks by previous hash ----

  function Tip(r: Rules, chain: seq<Block>): Hash {
    if chain == [] then NULL_HASH else r.blockHash(chain[|chain| - 1])
  }

  /** Each block names the one before it; the first names none. */
  predicate Linked(r: Rules, chain: seq<Block>) {
    chain == [] || (Linked(r, chain[..|chain| - 1]) && chain[|chain| - 1].prev == Tip(r, chain[..|chain| - 1]))
  }

  /** A block has only one ancestry. */
  lemma {:induction false} AncestryIsUnique(r: Rules, a: seq<Block>, b: seq<Block>)
    requires Lawful(r) && Linked(r, a) && Linked(r, b)
    requires a != [] && b != [] && a[|a| - 1] == b[|b| - 1]
    ensures a == b
  {
    var a', b' := a[..|a| - 1], b[..|b| - 1];
    assert Tip(r, a') == Tip(r, b');
    if a' != [] && b' != [] {
      assert r.blockHash(a'[|a'| - 1]) == r.blockHash(b'[|b'| - 1]);
      AncestryIsUnique(r, a', b');
    }
    assert a == a' + [a[|a| - 1]] && b == b' + [b[|b| - 1]];
  }

  /** Each cumulative difficulty is the one below plus what the rules ask of the next block. */
  predicate Accumulates(r: Rules, chain: seq<Link>) {
    chain == [] ||
    var n := |chain| - 1;
    && Accumulates(r, chain[..n])
    && chain[n].cumulativeDifficulty ==
         DifficultyAfter(r, chain[..n]) + (if n == 0 then 0 else chain[n - 1].cumulativeDifficulty)
  }

  function BlocksOf(chain: seq<Link>): (l: seq<Block>)
    ensures |l| == |chain|
    ensures forall i :: 0 <= i < |l| ==> l[i] == chain[i].bl
  {
    seq(|chain|, i requires 0 <= i < |chain| => chain[i].bl)
  }

  /** Cumulative difficulties are a function of the ancestry. */
  lemma {:induction false} DifficultyIsUnique(r: Rules, a: seq<Link>, b: seq<Link>)
    requires Accumulates(r, a) && Accumulates(r, b) && BlocksOf(a) == BlocksOf(b)
    ensures a == b
  {
    hide DifficultyAfter, BlocksOf;
    if a != [] {
      var n := |a| - 1;
      assert |b| == |a|;
      assert BlocksOf(a[..n]) == BlocksOf(a)[..n] && BlocksOf(b[..n]) == BlocksOf(b)[..n];
      DifficultyIsUnique(r, a[..n], b[..n]);
      assert a[n].bl == BlocksOf(a)[n] && b[n].bl == BlocksOf(b)[n];
      assert n > 0 ==> a[n - 1] == a[..n][n - 1] && b[n - 1] == b[..n][n - 1];
      assert a == a[..n] + [a[n]] && b == b[..n] + [b[n]];
    }
  }

  /** An entry whose ancestry reaches back to a first block, as long as its height says. */
  ghost predicate RootedBy(r: Rules, e: BlockEntry, chain: seq<Block>) {
    Linked(r, chain) && |chain| == e.height + 1 && chain[e.height] == e.bl
  }

  ghost predicate Rooted(r: Rules, e: BlockEntry) {
    exists chain :: RootedBy(r, e, chain)
  }

  /** An entry whose stored cumulative difficulty is the one its ancestry gives. */
  ghost predicate AccurateBy(r: Rules, e: BlockEntry, chain: seq<Link>) {
    && Linked(r, BlocksOf(chain)) && Accumulates(r, chain)
    && |chain| == e.height + 1 && chain[e.height] == LinkOf(e)
  }

  ghost predicate Accurate(r: Rules, e: BlockEntry) {
    exists chain :: AccurateBy(r, e, chain)
  }

  lemma {:induction false} LinkedPrefix(r: Rules, chain: seq<Block>, n: nat)
    requires Linked(r, chain) && n <= |chain|
    ensures Linked(r, chain[..n])
  {
    if n < |chain| {
      var init := chain[..|chain| - 1];
      LinkedPrefix(r, init, n);
      assert init[..n] == chain[..n];
    } else {
      assert chain[..n] == chain;
    }
  }

  lemma {:induction false} AccumulatesPrefix(r: Rules, chain: seq<Link>, n: nat)
    requires Accumulates(r, chain) && n <= |chain|
    ensures Accumulates(r, chain[..n])
  {
    hide DifficultyAfter;
    if n < |chain| {
      var init := chain[..|chain| - 1];
      AccumulatesPrefix(r, init, n);
      assert init[..n] == chain[..n];
    } else {
      assert chain[..n] == chain;
    }
  }

  /** The main chain itself is linked and accumulates. */
  lemma {:induction false} MainChainLinks(r: Rules, blocks: seq<BlockEntry>, now: nat)
    requires ChainOk(r, blocks, now)
    ensures Linked(r, BlocksOf(Links(blocks))) && Accumulates(r, Links(blocks))
  {
    hide DifficultyAfter, Connect, NamedAndNew, BlocksOf, Links;
    if blocks != [] {
      var n := |blocks| - 1;
      MainChainLinks(r, blocks[..n], now);
      ConnectedBlock(r, blocks[..n], blocks[n], now);
      var bs, ls := BlocksOf(Links(blocks)), Links(blocks);
      assert ls[..n] == Links(blocks[..n]);
      assert bs[..n] == BlocksOf(Links(blocks[..n]));
    }
  }

  lemma {:induction false} MainHeight(r: Rules, blocks: seq<BlockEntry>, now: nat, i: nat)
    requires ChainOk(r, blocks, now) && i < |blocks|
    ensures blocks[i].height == i
    ensures i > 0 ==> blocks[i - 1].cumulativeDifficulty < blocks[i].cumulativeDifficulty
  {
    hide DifficultyAfter, Connect, NamedAndNew, ChainOk, Links;
    ChainLink(r, blocks, now, i);
    ConnectedBlock(r, blocks[..i], blocks[i], now);
  }

  /** Cumulative difficulty rises strictly along the main chain. */
  lemma {:induction false} MainDifficultyRises(r: Rules, blocks: seq<BlockEntry>, now: nat, i: nat, j: nat)
    requires ChainOk(r, blocks, now) && i < j < |blocks|
    ensures blocks[i].cumulativeDifficulty < blocks[j].cumulativeDifficulty
  {
    hide ChainOk;
    MainHeight(r, blocks, now, j);
    if i < j - 1 { MainDifficultyRises(r, blocks, now, i, j - 1); }
  }

  lemma {:induction false} ConnectedBlock(r: Rules, below: seq<BlockEntry>, e: BlockEntry, now: nat)
    requires Connect(r, below, e.bl, NonCoinbase(e), now) == Accepted(e)
    ensures e.height == |below|
    ensures e.bl.prev == Tip(r, BlocksOf(Links(below)))
    ensures DifficultyAfter(r, Links(below)) > 0
    ensures e.cumulativeDifficulty == DifficultyAfter(r, Links(below)) +
      (if below == [] then 0 else below[|below| - 1].cumulativeDifficulty)
  {
    hide DifficultyAfter, CheckTxs, Rebuild, Emission, Sizes, Interest;
  }

  // ---- the store of alternative blocks ----

  /** Stored under its own hash, above the first block, with an ancestry. */
  ghost predicate AltsOk(r: Rules, alts: map<Hash, BlockEntry>) {
    forall h :: h in alts ==> r.blockHash(alts[h].bl) == h && alts[h].height >= 1 && Rooted(r, alts[h])
  }

  /** A stored parent is exactly one lower. */
  predicate Climbing(alts: map<Hash, BlockEntry>) {
    forall h :: h in alts ==>
      alts[h].height >= 1 && (alts[h].bl.prev in alts ==> alts[alts[h].bl.prev].height + 1 == alts[h].height)
  }

  lemma {:induction false} ParentIsOneLower(r: Rules, child: BlockEntry, parent: BlockEntry)
    requires Lawful(r) && Rooted(r, child) && Rooted(r, parent)
    requires child.bl.prev == r.blockHash(parent.bl)
    ensures child.height == parent.height + 1
  {
    var c :| RootedBy(r, child, c);
    var p :| RootedBy(r, parent, p);
    var init := c[..|c| - 1];
    assert init != [];
    assert r.blockHash(init[|init| - 1]) == r.blockHash(parent.bl);
    AncestryIsUnique(r, init, p);
  }

  lemma {:induction false} AltsClimb(r: Rules, alts: map<Hash, BlockEntry>)
    requires Lawful(r) && AltsOk(r, alts)
    ensures Climbing(alts)
  {
    hide Rooted;
    forall h | h in alts && alts[h].bl.prev in alts ensures alts[alts[h].bl.prev].height + 1 == alts[h].height {
      ParentIsOneLower(r, alts[h], alts[alts[h].bl.prev]);
    }
  }

  /** The stored ancestors of a block, lowest first. */
  function AltChain(alts: map<Hash, BlockEntry>, h: Hash): seq<BlockEntry>
    requires Climbing(alts)
    decreases if h in alts then alts[h].height + 1 else 0
  {
    if h in alts then AltChain(alts, alts[h].bl.prev) + [alts[h]] else []
  }

  /** A run of entries where each names the one before and is one higher. */
  predicate Run(r: Rules, chain: seq<BlockEntry>) {
    forall i :: 0 <= i < |chain| - 1 ==>
      chain[i + 1].bl.prev == r.blockHash(chain[i].bl) && chain[i + 1].height == chain[i].height + 1
  }

  lemma {:induction false} AltChainIsRun(r: Rules, alts: map<Hash, BlockEntry>, h: Hash)
    requires Climbing(alts) && forall k :: k in alts ==> r.blockHash(alts[k].bl) == k
    ensures Run(r, AltChain(alts, h))
    ensures h in alts <==> AltChain(alts, h) != []
    ensures h in alts ==> AltChain(alts, h)[|AltChain(alts, h)| - 1] == alts[h]
    ensures forall i :: 0 <= i < |AltChain(alts, h)| ==>
      r.blockHash(AltChain(alts, h)[i].bl) in alts && alts[r.blockHash(AltChain(alts, h)[i].bl)] == AltChain(alts, h)[i]
    decreases if h in alts then alts[h].height + 1 else 0
  {
    if h in alts { AltChainIsRun(r, alts, alts[h].bl.prev); }
  }

  lemma {:induction false} RunHeights(r: Rules, chain: seq<BlockEntry>, i: nat)
    requires Run(r, chain) && i < |chain|
    ensures chain[i].height == chain[0].height + i
  {
    if i > 0 { RunHeights(r, chain, i - 1); }
  }

  /** Main chain below the fork, then the fork: still one linked chain. */
  lemma {:induction false} ForkIsLinked(r: Rules, main: seq<Block>, fork: seq<Block>)
    requires Linked(r, main)
    requires fork != [] ==> fork[0].prev == Tip(r, main)
    requires forall i :: 0 <= i < |fork| - 1 ==> fork[i + 1].prev == r.blockHash(fork[i])
    ensures Linked(r, main + fork)
    decreases |fork|
  {
    if fork == [] {
      assert main + fork == main;
    } else {
      var n := |fork| - 1;
      ForkIsLinked(r, main, fork[..n]);
      var whole := main + fork;
      assert whole[..|whole| - 1] == main + fork[..n];
      if n > 0 { assert fork[n - 1 + 1].prev == r.blockHash(fork[n - 1]); }
    }
  }

  /** A chain that ends in an accurate entry accumulates if the chain below it does. */
  lemma {:induction false} AccurateTip(r: Rules, below: seq<Link>, e: BlockEntry)
    requires Lawful(r) && Accumulates(r, below) && Accurate(r, e)
    requires Linked(r, BlocksOf(below + [LinkOf(e)]))
    ensures Accumulates(r, below + [LinkOf(e)])
  {
    hide DifficultyAfter, BlocksOf, Linked, Accumulates;
    var chain :| AccurateBy(r, e, chain);
    var whole := below + [LinkOf(e)];
    var n := |below|;
    AncestryIsUnique(r, BlocksOf(chain), BlocksOf(whole));
    assert |chain| == n + 1;
    AccumulatesPrefix(r, chain, n);
    assert BlocksOf(chain[..n]) == BlocksOf(below);
    DifficultyIsUnique(r, chain[..n], below);
    assert chain == chain[..n] + [chain[n]];
  }

  /** ... and when every fork entry is accurate, the whole chain accumulates. */
  lemma {:induction false} ForkAccumulates(r: Rules, main: seq<Link>, fork: seq<BlockEntry>)
    requires Lawful(r) && Accumulates(r, main)
    requires Linked(r, BlocksOf(main + Links(fork)))
    requires forall i :: 0 <= i < |fork| ==> Accurate(r, fork[i])
    ensures Accumulates(r, main + Links(fork))
  {
    hide DifficultyAfter, BlocksOf, Linked, Accumulates, Links, Accurate;
    if fork == [] {
      assert main + Links(fork) == main;
    } else {
      var n := |fork| - 1;
      var below := main + Links(fork[..n]);
      var whole := main + Links(fork);
      assert whole == below + [LinkOf(fork[n])];
      LinkedPrefix(r, BlocksOf(whole), |below|);
      assert BlocksOf(whole)[..|below|] == BlocksOf(below);
      ForkAccumulates(r, main, fork[..n]);
      AccurateTip(r, below, fork[n]);
    }
  }
}
