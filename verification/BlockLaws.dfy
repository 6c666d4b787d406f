/**
 * What every block of the main chain satisfies, said in terms of the blocks below it: its
 * header, the difficulty it was held to, its size, its reward and the coins it brought. And the
 * converse: a block offered on the tip is connected exactly when it satisfies all this.
 */
module BlockLaws {
  import opened Wrappers
  import opened LedgerTypes
  import opened TxCaches
  import opened Validation
  import opened ChainFacts
  import opened InputChecks
  import opened Ledger
  import opened Forks
  import opened Reorg
  import DepositIndex
  import Runs

  // ---- the difficulty of the next block ----

  /** Timestamps and cumulative difficulties of the last blocks, as many as asked for, but never the first block's. */
  ghost predicate LastOf(blocks: seq<BlockEntry>, count: nat, t: seq<nat>, d: seq<nat>) {
    && |t| == |d| == (if count + 1 <= |blocks| then count else if blocks == [] then 0 else |blocks| - 1)
    && forall k :: 0 <= k < |t| ==>
      && t[k] == blocks[|blocks| - |t| + k].bl.timestamp
      && d[k] == blocks[|blocks| - |t| + k].cumulativeDifficulty
  }

  /** How many blocks count on a chain of the given size. */
  function Counted(r: Rules, size: nat): nat {
    if size > r.upgradeV3 then 61 else r.oldDifficultyCount
  }

  lemma {:induction false} WindowIsLast(blocks: seq<BlockEntry>, count: nat, t: seq<nat>, d: seq<nat>)
    requires LastOf(blocks, count, t, d)
    ensures Timestamps(Window(Links(blocks), count)) == t && Difficulties(Window(Links(blocks), count)) == d
  {
    var w := Window(Links(blocks), count);
    assert |w| == |t|;
    assert forall k :: 0 <= k < |w| ==> w[k] == LinkOf(blocks[|blocks| - |t| + k]);
  }

  /** The difficulty asked of the next block is the formula on these lists, the new formula once the next block is above the upgrade. */
  lemma {:induction false} NextDifficultyIs(r: Rules, blocks: seq<BlockEntry>, t: seq<nat>, d: seq<nat>)
    requires LastOf(blocks, Counted(r, |blocks|), t, d)
    ensures DifficultyAfter(r, Links(blocks)) == r.nextDifficulty(|blocks| + 1 > r.upgradeV3, t, d)
  {
    hide Window, Timestamps, Difficulties, LastOf;
    WindowIsLast(blocks, Counted(r, |blocks|), t, d);
  }

  /** For a block on a fork: the lists are those of the joined chain, formula and count go by the main chain's size. */
  lemma {:induction false} ForkDifficultyIs(r: Rules, blocks: seq<BlockEntry>, chain: seq<BlockEntry>, height: nat, t: seq<nat>, d: seq<nat>)
    requires var stop := if chain == [] then height else chain[0].height;
      1 <= stop <= |blocks| && LastOf(blocks[..stop] + chain, Counted(r, |blocks|), t, d)
    requires r.oldDifficultyCount > 0
    ensures AltDifficulty(r, blocks, chain, height) == r.nextDifficulty(|blocks| + 1 > r.upgradeV3, t, d)
  {
    hide Window, Timestamps, Difficulties, AltWindow, LastOf;
    var stop := if chain == [] then height else chain[0].height;
    WindowsAgree(Links(blocks), Links(chain), stop, Counted(r, |blocks|));
    assert Links(blocks)[..stop] + Links(chain) == Links(blocks[..stop] + chain);
    WindowIsLast(blocks[..stop] + chain, Counted(r, |blocks|), t, d);
  }

  // ---- the header ----

  function Recent(blocks: seq<BlockEntry>, n: nat): seq<nat>
    requires n <= |blocks|
  {
    seq<nat>(n, k requires 0 <= k < n => blocks[|blocks| - n + k].bl.timestamp)
  }

  /** The coinbase of a block of the given height. */
  predicate CoinbaseLaw(r: Rules, tx: Tx, height: nat) {
    && tx.inputs == [BaseInput(height)] && tx.unlockTime == height + r.unlockWindow
    && |tx.signatures| <= 1 && r.outsValid(tx)
  }

  predicate VersionLaw(r: Rules, version: nat, height: nat) {
    && (height > r.upgradeV3 ==> version == 3)
    && (r.upgradeV2 < height <= r.upgradeV3 ==> version == 2)
    && (height <= r.upgradeV2 && height <= r.upgradeV3 ==> version == 1)
  }

  /** A new block that names the tip, with enough work, a timestamp neither too late nor too early, and the version and coinbase of its height. */
  ghost predicate HeaderLaw(r: Rules, blocks: seq<BlockEntry>, b: Block, difficulty: nat, now: nat) {
    && (forall i :: 0 <= i < |blocks| ==> r.blockHash(blocks[i].bl) != r.blockHash(b))
    && b.prev == (if blocks == [] then NULL_HASH else r.blockHash(blocks[|blocks| - 1].bl))
    && difficulty > 0 && r.checkPow(b, difficulty)
    && b.timestamp <= now + r.futureTimeLimit
    && (r.timestampWindow <= |blocks| ==> r.median(Recent(blocks, r.timestampWindow)) <= b.timestamp)
    && VersionLaw(r, b.majorVersion, |blocks|)
    && CoinbaseLaw(r, b.baseTx, |blocks|)
  }

  lemma {:induction false} ShapeIsLaw(r: Rules, b: Block, height: nat)
    ensures MinerTxShape(r, b, height) <==> CoinbaseLaw(r, b.baseTx, height)
    ensures MinerTxShape(r, b, height) ==> BlockHeight(b) == height
  {
  }

  lemma {:induction false} VersionIsLaw(r: Rules, version: nat, height: nat)
    ensures version == VersionAt(r, height) <==> VersionLaw(r, version, height)
  {
  }

  lemma {:induction false} TimestampIsLaw(r: Rules, blocks: seq<BlockEntry>, b: Block, now: nat)
    ensures TimestampOk(r, blocks, b, now) <==>
      && b.timestamp <= now + r.futureTimeLimit
      && (r.timestampWindow <= |blocks| ==> r.median(Recent(blocks, r.timestampWindow)) <= b.timestamp)
  {
    if r.timestampWindow <= |blocks| {
      assert LastTimestamps(r, blocks) == Recent(blocks, r.timestampWindow);
    }
  }

  /** The header passes exactly when it obeys the law at the difficulty asked of it. */
  lemma {:induction false} HeaderOkIff(r: Rules, blocks: seq<BlockEntry>, b: Block, now: nat)
    ensures HeaderOk(r, blocks, b, now) <==> HeaderLaw(r, blocks, b, DifficultyAfter(r, Links(blocks)), now)
  {
    ShapeIsLaw(r, b, |blocks|);
    VersionIsLaw(r, b.majorVersion, |blocks|);
    TimestampIsLaw(r, blocks, b, now);
    hide MinerTxShape, CoinbaseLaw, VersionAt, VersionLaw, TimestampOk, DifficultyAfter, Recent, BlockHeight;
  }

  // ---- amounts, sizes, fees and interest, summed from the front ----

  function Weight(r: Rules, txs: seq<Tx>): nat {
    if txs == [] then 0 else r.blobSize(txs[0]) + Weight(r, txs[1..])
  }

  function Amounts(outputs: seq<Output>): nat {
    if outputs == [] then 0 else outputs[0].amount + Amounts(outputs[1..])
  }

  /** What goes in less what comes out, or the minimum fee where more comes out. */
  function FeesPaid(r: Rules, txs: seq<Tx>, height: nat): nat {
    if txs == [] then 0
    else
      var paidIn, paidOut := r.inputsAmount(txs[0], height), Amounts(txs[0].outputs);
      (if paidOut <= paidIn then paidIn - paidOut else 100) + FeesPaid(r, txs[1..], height)
  }

  /** What the deposits withdrawn by the inputs have earned. */
  function InterestOf(r: Rules, inputs: seq<Input>, height: nat): nat {
    if inputs == [] then 0
    else
      match inputs[0]
      case MultisigInput(amount, _, _, term) =>
        (if term == 0 then 0 else r.interest(amount, term, height)) + InterestOf(r, inputs[1..], height)
      case _ => InterestOf(r, inputs[1..], height)
  }

  function InterestPaid(r: Rules, txs: seq<Tx>, height: nat): nat {
    if txs == [] then 0 else InterestOf(r, txs[0].inputs, height) + InterestPaid(r, txs[1..], height)
  }

  lemma {:induction false} SumFromFront(s: seq<nat>)
    requires s != []
    ensures Sum(s) == s[0] + Sum(s[1..])
  {
    var n := |s| - 1;
    if n > 0 {
      SumFromFront(s[..n]);
      assert s[..n][1..] == s[1..][..n - 1];
    }
  }

  lemma {:induction false} SizesIsWeight(r: Rules, txs: seq<Tx>)
    ensures Sizes(r, txs) == Weight(r, txs)
  {
    var s := seq<nat>(|txs|, i requires 0 <= i < |txs| => r.blobSize(txs[i]));
    if txs != [] {
      SumFromFront(s);
      SizesIsWeight(r, txs[1..]);
      assert s[1..] == seq<nat>(|txs[1..]|, i requires 0 <= i < |txs[1..]| => r.blobSize(txs[1..][i]));
    }
  }

  lemma {:induction false} AmountsAre(outputs: seq<Output>, s: seq<nat>)
    requires |s| == |outputs| && forall i :: 0 <= i < |s| ==> s[i] == outputs[i].amount
    ensures Sum(s) == Amounts(outputs)
  {
    if s != [] {
      SumFromFront(s);
      AmountsAre(outputs[1..], s[1..]);
    }
  }

  lemma {:induction false} OutAmountIs(tx: Tx)
    ensures OutAmount(tx) == Amounts(tx.outputs)
  {
    AmountsAre(tx.outputs, seq<nat>(|tx.outputs|, o requires 0 <= o < |tx.outputs| => tx.outputs[o].amount));
  }

  lemma {:induction false} FeesAre(r: Rules, txs: seq<Tx>, height: nat)
    ensures Fees(r, txs, height) == FeesPaid(r, txs, height)
  {
    hide OutAmount, Amounts;
    var s := seq<nat>(|txs|, i requires 0 <= i < |txs| => Fee(r, txs[i], height));
    if txs != [] {
      SumFromFront(s);
      OutAmountIs(txs[0]);
      FeesAre(r, txs[1..], height);
      assert s[1..] == seq<nat>(|txs[1..]|, i requires 0 <= i < |txs[1..]| => Fee(r, txs[1..][i], height));
    }
  }

  lemma {:induction false} EarnedIs(r: Rules, inputs: seq<Input>, height: nat)
    ensures Earned(r, inputs, height) == InterestOf(r, inputs, height)
  {
    if inputs != [] {
      var n := |inputs| - 1;
      EarnedFromFront(r, inputs, height);
      EarnedIs(r, inputs[1..], height);
    }
  }

  lemma {:induction false} EarnedFromFront(r: Rules, inputs: seq<Input>, height: nat)
    requires inputs != []
    ensures Earned(r, inputs, height) == Earned(r, inputs[..1], height) + Earned(r, inputs[1..], height)
    ensures Earned(r, inputs[..1], height) ==
      if inputs[0].MultisigInput? && inputs[0].term != 0 then r.interest(inputs[0].amount, inputs[0].term, height) else 0
  {
    var n := |inputs| - 1;
    assert inputs[..1][..0] == [];
    if n > 0 {
      EarnedFromFront(r, inputs[..n], height);
      assert inputs[..n][..1] == inputs[..1] && inputs[..n][1..] == inputs[1..][..n - 1];
    } else {
      assert inputs[..1] == inputs;
    }
  }

  lemma {:induction false} InterestIs(r: Rules, txs: seq<Tx>, height: nat)
    ensures Interest(r, txs, height) == InterestPaid(r, txs, height)
  {
    hide Earned, InterestOf;
    var s := seq<nat>(|txs|, i requires 0 <= i < |txs| => Earned(r, txs[i].inputs, height));
    if txs != [] {
      SumFromFront(s);
      EarnedIs(r, txs[0].inputs, height);
      InterestIs(r, txs[1..], height);
      assert s[1..] == seq<nat>(|txs[1..]|, i requires 0 <= i < |txs[1..]| => Earned(r, txs[1..][i].inputs, height));
    }
  }

  // ---- transactions and reward ----

  /** An input spends what is there, unspent and mature, with the signatures it needs. */
  ghost predicate InputLaw(r: Rules, blocks: seq<BlockEntry>, c: Caches, tx: Tx, i: nat, now: nat)
    requires i < |tx.inputs|
  {
    match tx.inputs[i]
    case BaseInput(_) => false
    case KeyInput(amount, indexes, image) =>
      && indexes != [] && image !in c.spent && amount in c.outs
      && i < |tx.signatures| && exists keys :: RingSigned(r, blocks, c.outs[amount], tx, i, now, keys)
    case MultisigInput(amount, _, position, _) =>
      && i < |tx.signatures| && position < |At(c.msig, amount)|
      && SignedFor(r, blocks, At(c.msig, amount)[position], tx, i, now)
  }

  /** A deposit has a term and an amount within bounds; multisignature outputs need the second transaction version. */
  predicate OutputLaw(r: Rules, version: nat, out: Output) {
    match out.target
    case KeyOutput(_) => true
    case MultisigOutput(_, _, term) =>
      version >= 2 && (term == 0 || (r.depositMinTerm <= term <= r.depositMaxTerm && r.depositMinAmount <= out.amount))
  }

  ghost predicate TxLaw(r: Rules, blocks: seq<BlockEntry>, c: Caches, blockVersion: nat, tx: Tx, now: nat) {
    && (forall i :: 0 <= i < |tx.inputs| ==> InputLaw(r, blocks, c, tx, i, now))
    && (blockVersion == 1 ==> tx.version <= 1)
    && (forall o :: 0 <= o < |tx.outputs| ==> OutputLaw(r, tx.version, tx.outputs[o]))
  }

  lemma {:induction false} InputPassesIff(r: Rules, blocks: seq<BlockEntry>, c: Caches, tx: Tx, i: nat, now: nat)
    requires i < |tx.inputs|
    ensures CheckInput(r, blocks, c, tx, i, now) == Pass <==> InputLaw(r, blocks, c, tx, i, now)
  {
    hide CheckKeyInput, CheckMsigInput, RingSigned, SignedFor;
    match tx.inputs[i]
    case BaseInput(_) =>
    case KeyInput(_, _, _) => KeyInputPassesIff(r, blocks, c, tx, i, now);
    case MultisigInput(_, _, _, _) => MsigInputPassesIff(r, blocks, c, tx, i, now);
  }

  lemma {:induction false} TxPassesIff(r: Rules, blocks: seq<BlockEntry>, c: Caches, blockVersion: nat, tx: Tx, now: nat)
    ensures CheckTx(r, blocks, c, blockVersion, tx, now) == Pass <==> TxLaw(r, blocks, c, blockVersion, tx, now)
  {
    hide CheckInput, InputLaw;
    InputsPassIff(r, blocks, c, tx, |tx.inputs|, now);
    forall i | 0 <= i < |tx.inputs|
      ensures CheckInput(r, blocks, c, tx, i, now) == Pass <==> InputLaw(r, blocks, c, tx, i, now)
    {
      InputPassesIff(r, blocks, c, tx, i, now);
    }
    assert OutputsOk(r, tx) <==> forall o :: 0 <= o < |tx.outputs| ==> OutputLaw(r, tx.version, tx.outputs[o]);
  }

  /** The caches the j-th transaction of a block is checked against: the coinbase and the transactions before it are entered. */
  function CachesAt(r: Rules, blocks: seq<BlockEntry>, b: Block, txs: seq<Tx>, j: nat): Caches
    requires j <= |txs|
  {
    AddAll(Rebuild(r, blocks), Post(r.txHash, |blocks|, [b.baseTx] + txs[..j]))
  }

  lemma {:induction false} TxsPassIff(r: Rules, blocks: seq<BlockEntry>, b: Block, txs: seq<Tx>, n: nat, now: nat)
    requires n <= |txs|
    ensures CheckTxs(r, blocks, Rebuild(r, blocks), b.majorVersion, [b.baseTx] + txs, n + 1, now) == Pass <==>
      forall j :: 0 <= j < n ==> TxLaw(r, blocks, CachesAt(r, blocks, b, txs, j), b.majorVersion, txs[j], now)
  {
    hide CheckTx, TxLaw, AddAll, Rebuild, Post;
    if n > 0 {
      TxsPassIff(r, blocks, b, txs, n - 1, now);
      var all := [b.baseTx] + txs;
      assert all[..n] == [b.baseTx] + txs[..n - 1] && all[n] == txs[n - 1];
      TxPassesIff(r, blocks, CachesAt(r, blocks, b, txs, n - 1), b.majorVersion, txs[n - 1], now);
    }
  }

  function RecentSizes(blocks: seq<BlockEntry>, n: nat): seq<nat>
    requires n <= |blocks|
  {
    seq<nat>(n, k requires 0 <= k < n => blocks[|blocks| - n + k].cumulativeSize)
  }

  /** What the currency's formula gives for a block: the reward and the emission, or nothing when the block is too big for any. */
  function Rewarded(r: Rules, blocks: seq<BlockEntry>, b: Block, txs: seq<Tx>): Option<(nat, int)> {
    var n := |blocks|;
    r.blockReward(
      r.median(RecentSizes(blocks, if n <= r.rewardWindow then n else r.rewardWindow)),
      Weight(r, [b.baseTx] + txs),
      if n == 0 then 0 else blocks[n - 1].generatedCoins,
      FeesPaid(r, txs, n), n)
  }

  /** From a fixed height on, the coinbase pays exactly the reward. */
  predicate RewardLaw(r: Rules, blocks: seq<BlockEntry>, b: Block, txs: seq<Tx>) {
    match Rewarded(r, blocks, b, txs)
    case None => false
    case Some(reward) => |blocks| >= 290700 ==> Amounts(b.baseTx.outputs) == reward.0
  }

  lemma {:induction false} EmissionIs(r: Rules, blocks: seq<BlockEntry>, b: Block, txs: seq<Tx>)
    ensures var x := Emission(r, blocks, b, Sizes(r, [b.baseTx] + txs), Fees(r, txs, |blocks|));
      && (x.Some? <==> RewardLaw(r, blocks, b, txs))
      && (x.Some? ==> Rewarded(r, blocks, b, txs).Some? && x.value == Rewarded(r, blocks, b, txs).value.1)
  {
    hide Sizes, Weight, Fees, FeesPaid, OutAmount, Amounts;
    SizesIsWeight(r, [b.baseTx] + txs);
    FeesAre(r, txs, |blocks|);
    OutAmountIs(b.baseTx);
    var n := |blocks|;
    assert LastSizes(r, blocks) == RecentSizes(blocks, if n <= r.rewardWindow then n else r.rewardWindow);
  }

  // ---- acceptance ----

  /** Everything a block must satisfy to be connected on the given blocks. */
  ghost predicate BlockLaw(r: Rules, blocks: seq<BlockEntry>, b: Block, txs: seq<Tx>, now: nat) {
    && HeaderLaw(r, blocks, b, DifficultyAfter(r, Links(blocks)), now)
    && (forall j :: 0 <= j < |txs| ==> TxLaw(r, blocks, CachesAt(r, blocks, b, txs, j), b.majorVersion, txs[j], now))
    && Weight(r, [b.baseTx] + txs) <= r.maxBlockSize(|blocks|)
    && RewardLaw(r, blocks, b, txs)
  }

  /** What is recorded for a connected block. */
  ghost predicate EntryLaw(r: Rules, blocks: seq<BlockEntry>, b: Block, txs: seq<Tx>, e: BlockEntry) {
    var n := |blocks|;
    && e.bl == b && e.height == n && TxsOf(e) == [b.baseTx] + txs && e.cumulativeSize == Weight(r, [b.baseTx] + txs)
    && e.cumulativeDifficulty == DifficultyAfter(r, Links(blocks)) + (if n == 0 then 0 else blocks[n - 1].cumulativeDifficulty)
    && Rewarded(r, blocks, b, txs).Some?
    && e.generatedCoins == (if n == 0 then 0 else blocks[n - 1].generatedCoins)
         + Rewarded(r, blocks, b, txs).value.1 + InterestPaid(r, txs, n)
  }

  /** A block is accepted exactly when it obeys the law, and then this is what is recorded. */
  lemma {:induction false} AcceptedIff(r: Rules, blocks: seq<BlockEntry>, b: Block, txs: seq<Tx>, now: nat)
    ensures Connect(r, blocks, b, txs, now).Accepted? <==> BlockLaw(r, blocks, b, txs, now)
    ensures Connect(r, blocks, b, txs, now).Accepted? ==> EntryLaw(r, blocks, b, txs, Connect(r, blocks, b, txs, now).entry)
    ensures Connect(r, blocks, b, txs, now).TooBig? <==>
      && HeaderLaw(r, blocks, b, DifficultyAfter(r, Links(blocks)), now)
      && (forall j :: 0 <= j < |txs| ==> TxLaw(r, blocks, CachesAt(r, blocks, b, txs, j), b.majorVersion, txs[j], now))
      && Weight(r, [b.baseTx] + txs) > r.maxBlockSize(|blocks|)
  {
    hide HeaderOk, HeaderLaw, CheckTxs, TxLaw, CachesAt, DifficultyAfter, Links, Emission, RewardLaw, Rewarded, Sizes, Weight, Fees,
      Interest, InterestPaid, EntryTxs, TxsOf;
    var all := [b.baseTx] + txs;
    HeaderOkIff(r, blocks, b, now);
    TxsPassIff(r, blocks, b, txs, |txs|, now);
    SizesIsWeight(r, all);
    EmissionIs(r, blocks, b, txs);
    InterestIs(r, txs, |blocks|);
    if Connect(r, blocks, b, txs, now).Accepted? { AcceptedEntry(r, blocks, b, txs, now); }
  }

  // ---- every block of a chain ----

  /** The work asked of a block of the chain, as its cumulative difficulty shows it. */
  function WorkOf(blocks: seq<BlockEntry>, i: nat): int
    requires i < |blocks|
  {
    blocks[i].cumulativeDifficulty - (if i == 0 then 0 else blocks[i - 1].cumulativeDifficulty)
  }

  lemma {:induction false} ChainObeys(r: Rules, blocks: seq<BlockEntry>, now: nat, i: nat)
    requires ChainOk(r, blocks, now) && i < |blocks|
    ensures BlockLaw(r, blocks[..i], blocks[i].bl, NonCoinbase(blocks[i]), now)
    ensures EntryLaw(r, blocks[..i], blocks[i].bl, NonCoinbase(blocks[i]), blocks[i])
  {
    hide Connect, NamedAndNew, ChainOk, BlockLaw, EntryLaw, NonCoinbase;
    ChainLink(r, blocks, now, i);
    AcceptedIff(r, blocks[..i], blocks[i].bl, NonCoinbase(blocks[i]), now);
  }

  /** Every block of a valid chain carries the work that its cumulative difficulty records, and obeys the rules of its height. */
  lemma {:induction false} HeadersObey(r: Rules, blocks: seq<BlockEntry>, now: nat, i: nat)
    requires ChainOk(r, blocks, now) && i < |blocks|
    ensures WorkOf(blocks, i) > 0 && HeaderLaw(r, blocks[..i], blocks[i].bl, WorkOf(blocks, i), now)
    ensures forall t, d :: LastOf(blocks[..i], Counted(r, i), t, d) ==> WorkOf(blocks, i) == r.nextDifficulty(i + 1 > r.upgradeV3, t, d)
  {
    hide ChainOk, TxLaw, CachesAt, DifficultyAfter, RewardLaw, Rewarded, Weight, InterestPaid, LastOf, Links, NonCoinbase, TxsOf;
    ChainObeys(r, blocks, now, i);
    forall t, d | LastOf(blocks[..i], Counted(r, i), t, d)
      ensures WorkOf(blocks, i) == r.nextDifficulty(i + 1 > r.upgradeV3, t, d)
    {
      NextDifficultyIs(r, blocks[..i], t, d);
    }
  }

  /** The emissions of the blocks and the interest they paid. */
  function Coins(r: Rules, blocks: seq<BlockEntry>): int {
    if blocks == [] then 0
    else
      var n := |blocks| - 1;
      var txs := NonCoinbase(blocks[n]);
      Coins(r, blocks[..n]) + InterestPaid(r, txs, n) +
        (match Rewarded(r, blocks[..n], blocks[n].bl, txs) case Some(reward) => reward.1 case None => 0)
  }

  /** The coins recorded as generated are all emissions and all interest paid. */
  lemma {:induction false} CoinsAreSum(r: Rules, blocks: seq<BlockEntry>, now: nat)
    requires ChainOk(r, blocks, now) && blocks != []
    ensures blocks[|blocks| - 1].generatedCoins == Coins(r, blocks)
  {
    hide ChainOk, BlockLaw, Rewarded, Weight, InterestPaid, DifficultyAfter, Links, NonCoinbase, TxsOf;
    var n := |blocks| - 1;
    ChainObeys(r, blocks, now, n);
    if n > 0 {
      ChainPrefix(r, blocks, now, n);
      CoinsAreSum(r, blocks[..n], now);
    } else {
      assert blocks[..n] == [];
    }
  }

  /** All interest the blocks of a chain pay. */
  function AllInterest(r: Rules, blocks: seq<BlockEntry>): nat {
    if blocks == [] then 0
    else
      var n := |blocks| - 1;
      AllInterest(r, blocks[..n]) + InterestPaid(r, NonCoinbase(blocks[n]), n)
  }

  lemma {:induction false} DeltaIs(r: Rules, blocks: seq<BlockEntry>, i: nat)
    requires i < |blocks|
    ensures Deltas(r, blocks)[i] == DepositIndex.Delta(BlockDeposit(TxsOf(blocks[i])), InterestPaid(r, NonCoinbase(blocks[i]), i))
  {
    hide InterestPaid, Interest, BlockDeposit;
    InterestIs(r, NonCoinbase(blocks[i]), i);
  }

  lemma {:induction false} InterestSumIs(r: Rules, blocks: seq<BlockEntry>)
    ensures DepositIndex.InterestSum(Deltas(r, blocks)) == AllInterest(r, blocks)
  {
    if blocks != [] {
      hide InterestPaid, NonCoinbase, TxsOf, BlockDelta;
      var n := |blocks| - 1;
      InterestSumIs(r, blocks[..n]);
      DeltaIs(r, blocks, n);
      assert Deltas(r, blocks)[..n] == Deltas(r, blocks[..n]);
    }
  }

  /** The interest the deposit index records is all interest exactly when no block of zero net deposits pays any. */
  lemma {:induction false} RecordedInterestIs(r: Rules, s: State)
    requires s.deposits == DepositIndex.Build(Deltas(r, s.blocks))
    ensures DepositIndex.LastInterest(s.deposits) <= AllInterest(r, s.blocks)
    ensures DepositIndex.LastInterest(s.deposits) == AllInterest(r, s.blocks) <==>
      forall i :: 0 <= i < |s.blocks| && BlockDeposit(TxsOf(s.blocks[i])) == 0 ==> InterestPaid(r, NonCoinbase(s.blocks[i]), i) == 0
  {
    hide InterestPaid, NonCoinbase, TxsOf, BlockDeposit, BlockDelta, AllInterest, Deltas, DepositIndex.Build;
    var deltas := Deltas(r, s.blocks);
    DepositIndex.RecordedInterest(deltas);
    InterestSumIs(r, s.blocks);
    forall i | 0 <= i < |s.blocks|
      ensures deltas[i] == DepositIndex.Delta(BlockDeposit(TxsOf(s.blocks[i])), InterestPaid(r, NonCoinbase(s.blocks[i]), i))
    {
      DeltaIs(r, s.blocks, i);
    }
  }

  /** In every reachable state, every block of the main chain obeys the law on the blocks below it. */
  lemma {:induction false} ReachableBlocksObey(r: Rules, es: seq<Event>, i: nat)
    requires Lawful(r)
    ensures Inv(r, Runs.INITIAL)
    ensures Runs.Run(r, Runs.INITIAL, es).Next? && i < |Runs.Run(r, Runs.INITIAL, es).state.blocks| ==>
      var s := Runs.Run(r, Runs.INITIAL, es).state;
      && WorkOf(s.blocks, i) > 0 && HeaderLaw(r, s.blocks[..i], s.blocks[i].bl, WorkOf(s.blocks, i), r.clock(s.tick))
      && BlockLaw(r, s.blocks[..i], s.blocks[i].bl, NonCoinbase(s.blocks[i]), r.clock(s.tick))
  {
    hide Lawful, Inv, HeaderLaw, BlockLaw, Runs.Run, ChainOk, NonCoinbase;
    Runs.ReachableStates(r, es);
    if Runs.Run(r, Runs.INITIAL, es).Next? && i < |Runs.Run(r, Runs.INITIAL, es).state.blocks| {
      var s := Runs.Run(r, Runs.INITIAL, es).state;
      HeadersObey(r, s.blocks, r.clock(s.tick), i);
      ChainObeys(r, s.blocks, r.clock(s.tick), i);
    }
  }

  // ---- a block offered on the tip ----

  predicate NamesPooled(pool: map<Hash, Tx>, hashes: seq<Hash>) {
    && (forall i :: 0 <= i < |hashes| ==> hashes[i] in pool)
    && (forall i, j :: 0 <= i < j < |hashes| ==> hashes[i] != hashes[j])
  }

  function Pooled(pool: map<Hash, Tx>, hashes: seq<Hash>): (txs: seq<Tx>)
    requires NamesPooled(pool, hashes)
    ensures |txs| == |hashes| && forall i :: 0 <= i < |hashes| ==> txs[i] == pool[hashes[i]]
  {
    seq(|hashes|, i requires 0 <= i < |hashes| => pool[hashes[i]])
  }

  lemma {:induction false} TakenIsPooled(pool: map<Hash, Tx>, hashes: seq<Hash>)
    ensures CanTake(pool, hashes) <==> NamesPooled(pool, hashes)
    ensures CanTake(pool, hashes) ==> Taken(pool, hashes) == Pooled(pool, hashes)
  {
  }

  /** The block names transactions of the pool, each once, and obeys the law with them. */
  ghost predicate Connectable(r: Rules, s: State, b: Block) {
    NamesPooled(s.pool, b.txHashes) && BlockLaw(r, s.blocks, b, Pooled(s.pool, b.txHashes), r.clock(s.tick + 1))
  }

  /** What an added block changes, and that a refused one changes nothing but the clock. */
  lemma {:induction false} PushedStates(r: Rules, s: State, b: Block)
    ensures PushStep(r, s, b).Added? <==>
      CanTake(s.pool, b.txHashes) && Connect(r, s.blocks, b, Taken(s.pool, b.txHashes), r.clock(s.tick + 1)).Accepted?
    ensures PushStep(r, s, b).Added? ==>
      var s' := PushStep(r, s, b).state;
      && |s'.blocks| == |s.blocks| + 1 && s'.blocks[..|s.blocks|] == s.blocks
      && s'.blocks[|s.blocks|].bl == b && s'.pool == s.pool - (set h | h in b.txHashes)
    ensures PushStep(r, s, b).Refused? ==> PushStep(r, s, b).state == s.(tick := PushStep(r, s, b).state.tick)
  {
    hide Connect, AddAll, Post, TxsOf, BlockDelta, CanTake, Taken, DepositIndex.Push;
    if PushStep(r, s, b).Added? {
      AcceptedEntry(r, s.blocks, b, Taken(s.pool, b.txHashes), r.clock(s.tick + 1));
    }
  }

  lemma {:induction false} PushedIff(r: Rules, s: State, b: Block)
    ensures PushStep(r, s, b).Added? <==> Connectable(r, s, b)
  {
    hide Connect, BlockLaw, PushStep, CanTake, Taken, Pooled, NamesPooled;
    PushedStates(r, s, b);
    TakenIsPooled(s.pool, b.txHashes);
    if CanTake(s.pool, b.txHashes) {
      AcceptedIff(r, s.blocks, b, Taken(s.pool, b.txHashes), r.clock(s.tick + 1));
    }
  }

  /**
   * A new block that names the tip is connected exactly when it obeys the law. Otherwise, unless
   * it is too big or makes a check throw, nothing but the clock changes.
   */
  lemma {:induction false} TipGrowsIff(r: Rules, s: State, b: Block)
    requires Inv(r, s) && b.prev == TailId(r, s.blocks) && r.blockHash(b) !in s.alts
    ensures var x := AddNewBlock(r, s, b);
      && ((x.Next? && |x.state.blocks| == |s.blocks| + 1 && x.state.blocks[..|s.blocks|] == s.blocks &&
           x.state.blocks[|s.blocks|].bl == b) <==> Connectable(r, s, b))
      && (x.Next? && !Connectable(r, s, b) ==> x.state == s.(tick := x.state.tick))
  {
    hide MainOk, AltsOk, Connectable, PushStep, HandleAlternative;
    PushedIff(r, s, b);
    PushedStates(r, s, b);
    if r.blockHash(b) in s.index { KnownIsNotConnectable(r, s, b); }
  }

  lemma {:induction false} KnownIsNotConnectable(r: Rules, s: State, b: Block)
    requires Inv(r, s) && r.blockHash(b) in s.index
    ensures !Connectable(r, s, b)
  {
    hide ChainOk, Rebuild, DepositIndex.Build, Deltas, PoolOk, AltsOk, Lawful, TxLaw, CachesAt, RewardLaw, Weight, CoinbaseLaw;
    var i :| 0 <= i < |s.index| && s.index[i] == r.blockHash(b);
    assert r.blockHash(s.blocks[i].bl) == r.blockHash(b);
  }

  /** A block offered on the tip whose header breaks the law leaves blocks, caches, index, deposits and pool as they were. */
  lemma {:induction false} BadHeaderChangesNothing(r: Rules, s: State, b: Block)
    requires Inv(r, s) && b.prev == TailId(r, s.blocks)
    requires !HeaderLaw(r, s.blocks, b, DifficultyAfter(r, Links(s.blocks)), r.clock(s.tick + 1))
    ensures AddNewBlock(r, s, b).Next? && AddNewBlock(r, s, b).state == s.(tick := AddNewBlock(r, s, b).state.tick)
  {
    hide Inv, HeaderLaw, HeaderOk, CanTake, Taken, DifficultyAfter, Links, HandleAlternative, Rebuild, CheckTxs, Emission, Sizes,
      EntryFor, Grown, Entered, Interrupted;
    HeaderOkIff(r, s.blocks, b, r.clock(s.tick + 1));
  }
}
