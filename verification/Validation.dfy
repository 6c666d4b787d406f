/**
 * What pushBlock checks before a block is connected, as a function of the blocks
 * below it, the block, its transactions and the clock.
 */
module Validation {
  import opened Wrappers
  import opened LedgerTypes
  import opened TxCaches
  import Multisig

  /**
   * Everything the ledger calls but does not define (hashes, signatures, proof of
   * work, the currency's formulas, the clock) and the currency's constants.
   */
  datatype Rules = Rules(
    txHash: Tx -> Hash,
    blockHash: Block -> Hash,
    prefixHash: Tx -> Hash,
    checkSignature: (Hash, nat, nat) -> bool,
    checkRing: (Hash, KeyImage, seq<nat>, seq<nat>) -> bool,
    checkPow: (Block, nat) -> bool,
    nextDifficulty: (bool, seq<nat>, seq<nat>) -> nat,
    median: seq<nat> -> nat,
    outsValid: Tx -> bool,
    blobSize: Tx -> nat,
    inputsAmount: (Tx, nat) -> nat,
    interest: (nat, nat, nat) -> nat,
    maxBlockSize: nat -> nat,
    blockReward: (nat, nat, int, nat, nat) -> Option<(nat, int)>,
    mergeMined: Tx -> bool,
    clock: nat -> nat,
    upgradeV2: nat,
    upgradeV3: nat,
    oldDifficultyCount: nat,
    timestampWindow: nat,
    futureTimeLimit: nat,
    unlockWindow: nat,
    rewardWindow: nat,
    maxBlockHeight: nat,
    lockedDeltaBlocks: nat,
    lockedDeltaSeconds: nat,
    depositMinTerm: nat,
    depositMaxTerm: nat,
    depositMinAmount: nat)

  /**
   * Hashes identify what they hash, no block hashes to the null hash, time does not
   * go back, and a difficulty window holds at least one block.
   */
  ghost predicate Lawful(r: Rules) {
    && (forall x, y :: r.txHash(x) == r.txHash(y) ==> x == y)
    && (forall x, y :: r.blockHash(x) == r.blockHash(y) ==> x == y)
    && (forall x :: r.blockHash(x) != NULL_HASH)
    && (forall i, j :: 0 <= i <= j ==> r.clock(i) <= r.clock(j))
    && r.oldDifficultyCount > 0
  }

  const MINIMUM_FEE := 100
  const LENIENT_REWARD_HEIGHT := 290700
  const LWMA3_BLOCKS_COUNT := 61

  // ---- difficulty of the next block ----

  datatype Link = Link(bl: Block, cumulativeDifficulty: nat)

  function LinkOf(e: BlockEntry): Link {
    Link(e.bl, e.cumulativeDifficulty)
  }

  function Links(blocks: seq<BlockEntry>): (l: seq<Link>)
    ensures |l| == |blocks|
    ensures forall i :: 0 <= i < |l| ==> l[i] == LinkOf(blocks[i])
  {
    seq(|blocks|, i requires 0 <= i < |blocks| => LinkOf(blocks[i]))
  }

  function VersionAt(r: Rules, height: nat): nat {
    if height > r.upgradeV3 then 3 else if height > r.upgradeV2 then 2 else 1
  }

  function DifficultyCount(r: Rules, version: nat): nat {
    if version >= 3 then LWMA3_BLOCKS_COUNT else r.oldDifficultyCount
  }

  /** The last `count` elements, but never the genesis block. */
  function Window<T>(s: seq<T>, count: nat): seq<T> {
    var offset := |s| - (if |s| < count then |s| else count);
    var start := if offset == 0 then 1 else offset;
    if start < |s| then s[start..] else []
  }

  function Timestamps(w: seq<Link>): (t: seq<nat>)
    ensures |t| == |w|
    ensures forall i :: 0 <= i < |w| ==> t[i] == w[i].bl.timestamp
  {
    seq(|w|, i requires 0 <= i < |w| => w[i].bl.timestamp)
  }

  function Difficulties(w: seq<Link>): (d: seq<nat>)
    ensures |d| == |w|
    ensures forall i :: 0 <= i < |w| ==> d[i] == w[i].cumulativeDifficulty
  {
    seq(|w|, i requires 0 <= i < |w| => w[i].cumulativeDifficulty)
  }

  /** The difficulty formula in force at a given chain size, applied to a window. */
  function DifficultyFrom(r: Rules, size: nat, w: seq<Link>): nat {
    r.nextDifficulty(VersionAt(r, size + 1) >= 3, Timestamps(w), Difficulties(w))
  }

  function DifficultyAfter(r: Rules, chain: seq<Link>): nat {
    DifficultyFrom(r, |chain|, Window(chain, DifficultyCount(r, VersionAt(r, |chain|))))
  }

  // ---- the header ----

  function Ids(r: Rules, blocks: seq<BlockEntry>): (l: seq<Hash>)
    ensures |l| == |blocks|
    ensures forall i :: 0 <= i < |l| ==> l[i] == r.blockHash(blocks[i].bl)
  {
    seq<Hash>(|blocks|, i requires 0 <= i < |blocks| => r.blockHash(blocks[i].bl))
  }

  function TailId(r: Rules, blocks: seq<BlockEntry>): Hash {
    if blocks == [] then NULL_HASH else r.blockHash(blocks[|blocks| - 1].bl)
  }

  function BlockHeight(b: Block): nat {
    if |b.baseTx.inputs| == 1 && b.baseTx.inputs[0].BaseInput? then b.baseTx.inputs[0].blockIndex else 0
  }

  function LastTimestamps(r: Rules, blocks: seq<BlockEntry>): seq<nat> {
    var start := if |blocks| <= r.timestampWindow then 0 else |blocks| - r.timestampWindow;
    seq<nat>(|blocks| - start, i requires 0 <= i < |blocks| - start => blocks[start + i].bl.timestamp)
  }

  /** check_block_timestamp: too few timestamps pass everything. */
  predicate NotTooEarly(r: Rules, timestamps: seq<nat>, timestamp: nat) {
    |timestamps| < r.timestampWindow || timestamp >= r.median(timestamps)
  }

  predicate TimestampOk(r: Rules, blocks: seq<BlockEntry>, b: Block, now: nat) {
    && b.timestamp <= now + r.futureTimeLimit
    && NotTooEarly(r, LastTimestamps(r, blocks), b.timestamp)
  }

  predicate MinerTxShape(r: Rules, b: Block, height: nat) {
    && |b.baseTx.inputs| == 1
    && |b.baseTx.signatures| <= 1
    && b.baseTx.inputs[0].BaseInput?
    && b.baseTx.inputs[0].blockIndex == height
    && b.baseTx.unlockTime == height + r.unlockWindow
    && r.outsValid(b.baseTx)
  }

  predicate HeaderOk(r: Rules, blocks: seq<BlockEntry>, b: Block, now: nat) {
    && r.blockHash(b) !in Ids(r, blocks)
    && b.majorVersion == VersionAt(r, BlockHeight(b))
    && b.prev == TailId(r, blocks)
    && TimestampOk(r, blocks, b, now)
    && DifficultyAfter(r, Links(blocks)) != 0
    && r.checkPow(b, DifficultyAfter(r, Links(blocks)))
    && MinerTxShape(r, b, |blocks|)
  }

  // ---- the inputs of a transaction ----

  /** Looking up a block that is not connected yet throws; that is the third outcome. */
  datatype Check = Pass | Fail | Throws

  function TxAt(blocks: seq<BlockEntry>, id: TxIndex): Option<Tx> {
    if id.block < |blocks| && id.transaction < |blocks[id.block].transactions|
    then Some(blocks[id.block].transactions[id.transaction].tx) else None
  }

  predicate Unlocked(r: Rules, size: nat, unlockTime: nat, now: nat) {
    if unlockTime < r.maxBlockHeight then size - 1 + r.lockedDeltaBlocks >= unlockTime
    else now + r.lockedDeltaSeconds >= unlockTime
  }

  /** Output indexes are stored as differences; sums wrap at 32 bits. */
  function Absolute(offsets: seq<nat>): (l: seq<nat>)
    ensures |l| == |offsets|
  {
    if |offsets| <= 1 then offsets
    else
      var init := Absolute(offsets[..|offsets| - 1]);
      init + [(init[|init| - 1] + offsets[|offsets| - 1]) % 0x1_0000_0000]
  }

  datatype Scan = Keys(keys: seq<nat>) | BadIndex | MissingBlock

  function ScanKeys(r: Rules, blocks: seq<BlockEntry>, refs: seq<OutRef>, offsets: seq<nat>, now: nat): Scan {
    if offsets == [] then Keys([])
    else
      var before := ScanKeys(r, blocks, refs, offsets[..|offsets| - 1], now);
      var i := offsets[|offsets| - 1];
      if !before.Keys? then before
      else if i >= |refs| then BadIndex
      else
        match TxAt(blocks, refs[i].index)
        case None => MissingBlock
        case Some(tx) =>
          if refs[i].output >= |tx.outputs| then BadIndex
          else if !Unlocked(r, |blocks|, tx.unlockTime, now) then BadIndex
          else if !tx.outputs[refs[i].output].target.KeyOutput? then BadIndex
          else Keys(before.keys + [tx.outputs[refs[i].output].target.key])
  }

  function CheckKeyInput(r: Rules, blocks: seq<BlockEntry>, c: Caches, tx: Tx, i: nat, now: nat): Check
    requires i < |tx.inputs| && tx.inputs[i].KeyInput?
  {
    var input := tx.inputs[i];
    if input.outputIndexes == [] then Fail
    else if input.keyImage in c.spent then Fail
    else if input.amount !in c.outs then Fail
    else
      match ScanKeys(r, blocks, c.outs[input.amount], Absolute(input.outputIndexes), now)
      case BadIndex => Fail
      case MissingBlock => Throws
      case Keys(keys) =>
        if i < |tx.signatures| && |tx.signatures[i]| == |keys| &&
           r.checkRing(r.prefixHash(tx), input.keyImage, keys, tx.signatures[i])
        then Pass else Fail
  }

  /** validateInput. */
  function CheckMsigInput(r: Rules, blocks: seq<BlockEntry>, c: Caches, tx: Tx, i: nat, now: nat): Check
    requires i < |tx.inputs| && tx.inputs[i].MultisigInput?
  {
    var input := tx.inputs[i];
    if input.amount !in c.msig || input.outputIndex >= |c.msig[input.amount]| then Fail
    else
      var usage := c.msig[input.amount][input.outputIndex];
      if usage.isUsed then Fail
      else
        match TxAt(blocks, usage.index)
        case None => Throws
        case Some(source) =>
          if !Unlocked(r, |blocks|, source.unlockTime, now) then Fail
          else if usage.output >= |source.outputs| || !source.outputs[usage.output].target.MultisigOutput? then Fail
          else
            var target := source.outputs[usage.output].target;
            if input.signatureCount != target.requiredSignatureCount then Fail
            else if input.term != target.term then Fail
            else if target.term != 0 && usage.index.block + target.term > |blocks| then Fail
            else if i < |tx.signatures| &&
              Multisig.Greedy((key, sig) => r.checkSignature(r.prefixHash(tx), key, sig), target.keys, tx.signatures[i])
            then Pass else Fail
  }

  function CheckInput(r: Rules, blocks: seq<BlockEntry>, c: Caches, tx: Tx, i: nat, now: nat): Check
    requires i < |tx.inputs|
  {
    match tx.inputs[i]
    case BaseInput(_) => Fail
    case KeyInput(_, _, _) => CheckKeyInput(r, blocks, c, tx, i, now)
    case MultisigInput(_, _, _, _) => CheckMsigInput(r, blocks, c, tx, i, now)
  }

  /** The outcome of the first input that does not pass, among the first n. */
  function CheckInputs(r: Rules, blocks: seq<BlockEntry>, c: Caches, tx: Tx, n: nat, now: nat): Check
    requires n <= |tx.inputs|
  {
    if n == 0 then Pass
    else
      var before := CheckInputs(r, blocks, c, tx, n - 1, now);
      if before != Pass then before else CheckInput(r, blocks, c, tx, n - 1, now)
  }

  // ---- the transactions of a block ----

  predicate OutputsOk(r: Rules, tx: Tx) {
    forall o :: 0 <= o < |tx.outputs| && tx.outputs[o].target.MultisigOutput? ==>
      && tx.version >= 2
      && (tx.outputs[o].target.term != 0 ==>
            && r.depositMinTerm <= tx.outputs[o].target.term <= r.depositMaxTerm
            && tx.outputs[o].amount >= r.depositMinAmount)
  }

  function CheckTx(r: Rules, blocks: seq<BlockEntry>, c: Caches, majorVersion: nat, tx: Tx, now: nat): Check {
    match CheckInputs(r, blocks, c, tx, |tx.inputs|, now)
    case Throws => Throws
    case Fail => Fail
    case Pass => if (majorVersion == 1 && tx.version > 1) || !OutputsOk(r, tx) then Fail else Pass
  }

  /** Each transaction is checked against the caches its predecessors in the block left. */
  function CheckTxs(r: Rules, blocks: seq<BlockEntry>, c: Caches, majorVersion: nat, all: seq<Tx>, n: nat, now: nat): Check
    requires 1 <= n <= |all|
  {
    if n == 1 then Pass
    else
      var before := CheckTxs(r, blocks, c, majorVersion, all, n - 1, now);
      if before != Pass then before
      else CheckTx(r, blocks, AddAll(c, Post(r.txHash, |blocks|, all[..n - 1])), majorVersion, all[n - 1], now)
  }

  lemma {:induction false} OneCheck(r: Rules, blocks: seq<BlockEntry>, c: Caches, v: nat, all: seq<Tx>, now: nat)
    requires all != []
    ensures CheckTxs(r, blocks, c, v, all, 1, now) == Pass
  {
  }

  /** The first transaction that does not pass decides. */
  lemma {:induction false} ChecksStay(r: Rules, blocks: seq<BlockEntry>, c: Caches, v: nat, all: seq<Tx>, n: nat, m: nat, now: nat)
    requires 1 <= n <= m <= |all| && CheckTxs(r, blocks, c, v, all, n, now) != Pass
    ensures CheckTxs(r, blocks, c, v, all, m, now) == CheckTxs(r, blocks, c, v, all, n, now)
    decreases m
  {
    hide CheckTx, AddAll;
    if n < m { ChecksStay(r, blocks, c, v, all, n, m - 1, now); }
  }

  /** How many of the first n transactions were pushed before the first that did not pass. */
  function Passed(r: Rules, blocks: seq<BlockEntry>, c: Caches, v: nat, all: seq<Tx>, n: nat, now: nat): (k: nat)
    requires 1 <= n <= |all|
    ensures 1 <= k <= n && CheckTxs(r, blocks, c, v, all, k, now) == Pass
    ensures k < n ==> CheckTxs(r, blocks, c, v, all, k + 1, now) == CheckTxs(r, blocks, c, v, all, n, now) != Pass
  {
    if CheckTxs(r, blocks, c, v, all, n, now) == Pass then n
    else Passed(r, blocks, c, v, all, n - 1, now)
  }

  lemma {:induction false} PassedIs(r: Rules, blocks: seq<BlockEntry>, c: Caches, v: nat, all: seq<Tx>, k: nat, now: nat)
    requires 1 <= k < |all| && CheckTxs(r, blocks, c, v, all, k, now) == Pass && CheckTxs(r, blocks, c, v, all, k + 1, now) != Pass
    ensures Passed(r, blocks, c, v, all, |all|, now) == k
  {
    hide CheckTxs;
    var p := Passed(r, blocks, c, v, all, |all|, now);
    ChecksStay(r, blocks, c, v, all, k + 1, |all|, now);
    if p < k { ChecksStay(r, blocks, c, v, all, p + 1, k, now); }
    if p > k { ChecksStay(r, blocks, c, v, all, k + 1, p, now); }
  }

  function Sum(s: seq<nat>): nat {
    if s == [] then 0 else Sum(s[..|s| - 1]) + s[|s| - 1]
  }

  function OutAmount(tx: Tx): nat {
    Sum(seq<nat>(|tx.outputs|, o requires 0 <= o < |tx.outputs| => tx.outputs[o].amount))
  }

  function Fee(r: Rules, tx: Tx, height: nat): nat {
    if r.inputsAmount(tx, height) < OutAmount(tx) then MINIMUM_FEE else r.inputsAmount(tx, height) - OutAmount(tx)
  }

  function Sizes(r: Rules, all: seq<Tx>): nat {
    Sum(seq<nat>(|all|, i requires 0 <= i < |all| => r.blobSize(all[i])))
  }

  function Fees(r: Rules, txs: seq<Tx>, height: nat): nat {
    Sum(seq<nat>(|txs|, i requires 0 <= i < |txs| => Fee(r, txs[i], height)))
  }

  /** calculateTotalTransactionInterest: what the deposits among the inputs have earned at a height. */
  function Earned(r: Rules, inputs: seq<Input>, height: nat): nat {
    if inputs == [] then 0
    else
      var last := inputs[|inputs| - 1];
      Earned(r, inputs[..|inputs| - 1], height) +
        (if last.MultisigInput? && last.term != 0 then r.interest(last.amount, last.term, height) else 0)
  }

  function Interest(r: Rules, txs: seq<Tx>, height: nat): nat {
    Sum(seq<nat>(|txs|, i requires 0 <= i < |txs| => Earned(r, txs[i].inputs, height)))
  }

  function LastSizes(r: Rules, blocks: seq<BlockEntry>): seq<nat> {
    var count := if |blocks| < r.rewardWindow then |blocks| else r.rewardWindow;
    seq<nat>(count, i requires 0 <= i < count => blocks[|blocks| - count + i].cumulativeSize)
  }

  function CoinsBefore(blocks: seq<BlockEntry>): int {
    if blocks == [] then 0 else blocks[|blocks| - 1].generatedCoins
  }

  /** validate_miner_transaction: the emission change when the reward is right (or early enough). */
  function Emission(r: Rules, blocks: seq<BlockEntry>, b: Block, size: nat, fee: nat): Option<int> {
    match r.blockReward(r.median(LastSizes(r, blocks)), size, CoinsBefore(blocks), fee, |blocks|)
    case None => None
    case Some(reward) =>
      if OutAmount(b.baseTx) == reward.0 || |blocks| < LENIENT_REWARD_HEIGHT then Some(reward.1) else None
  }

  // ---- the chain and its caches ----

  function TxsOf(e: BlockEntry): (l: seq<Tx>)
    ensures |l| == |e.transactions|
  {
    seq(|e.transactions|, i requires 0 <= i < |e.transactions| => e.transactions[i].tx)
  }

  /** What rebuildCache computes from the blocks alone. */
  function Rebuild(r: Rules, blocks: seq<BlockEntry>): Caches {
    if blocks == [] then EMPTY_CACHES
    else
      var n := |blocks| - 1;
      AddAll(Rebuild(r, blocks[..n]), Post(r.txHash, n, TxsOf(blocks[n])))
  }

  datatype Verdict = Accepted(entry: BlockEntry) | Rejected | TooBig | Threw

  /** The block's transactions with the positions their outputs get. */
  function EntryTxs(r: Rules, c: Caches, height: nat, all: seq<Tx>): (l: seq<TxEntry>)
    ensures |l| == |all|
    ensures forall i :: 0 <= i < |l| ==> l[i].tx == all[i]
  {
    seq(|all|, i requires 0 <= i < |all| =>
      TxEntry(all[i], GlobalIndexes(AddAll(c, Post(r.txHash, height, all[..i])), all[i].outputs)))
  }

  function EntryFor(r: Rules, blocks: seq<BlockEntry>, b: Block, txs: seq<Tx>, emission: int): BlockEntry {
    var n := |blocks|;
    var all := [b.baseTx] + txs;
    var c := Rebuild(r, blocks);
    var below := if blocks == [] then 0 else blocks[n - 1].cumulativeDifficulty;
    BlockEntry(b, n, Sizes(r, all),
      DifficultyAfter(r, Links(blocks)) + below,
      CoinsBefore(blocks) + emission + Interest(r, txs, n),
      EntryTxs(r, c, n, all))
  }

  /** The fate of a block offered on top of the given blocks. */
  function Connect(r: Rules, blocks: seq<BlockEntry>, b: Block, txs: seq<Tx>, now: nat): Verdict {
    if !HeaderOk(r, blocks, b, now) then Rejected
    else
      var all := [b.baseTx] + txs;
      match CheckTxs(r, blocks, Rebuild(r, blocks), b.majorVersion, all, |all|, now)
      case Throws => Threw
      case Fail => Rejected
      case Pass =>
        if Sizes(r, all) > r.maxBlockSize(|blocks|) then TooBig
        else
          match Emission(r, blocks, b, Sizes(r, all), Fees(r, txs, |blocks|))
          case None => Rejected
          case Some(emission) => Accepted(EntryFor(r, blocks, b, txs, emission))
  }

  /** The block names exactly these transactions, each admitted by the pool and new to the chain. */
  predicate NamedAndNew(r: Rules, blocks: seq<BlockEntry>, b: Block, txs: seq<Tx>) {
    && |txs| == |b.txHashes|
    && (forall i :: 0 <= i < |txs| ==> r.txHash(txs[i]) == b.txHashes[i] && Semantic(txs[i]))
    && (forall i :: 0 <= i < |txs| ==> b.txHashes[i] !in Rebuild(r, blocks).txs)
    && (forall i, j :: 0 <= i < j < |txs| ==> b.txHashes[i] != b.txHashes[j])
  }

  function NonCoinbase(e: BlockEntry): seq<Tx> {
    if e.transactions == [] then [] else TxsOf(e)[1..]
  }

  /** Every block would be accepted again, right now, on the blocks below it, and give the same entry. */
  predicate ChainOk(r: Rules, blocks: seq<BlockEntry>, now: nat) {
    blocks == [] ||
    var n := |blocks| - 1;
    && ChainOk(r, blocks[..n], now)
    && NamedAndNew(r, blocks[..n], blocks[n].bl, NonCoinbase(blocks[n]))
    && Connect(r, blocks[..n], blocks[n].bl, NonCoinbase(blocks[n]), now) == Accepted(blocks[n])
  }

  // ---- a verdict of acceptance does not expire ----

  lemma {:induction false} ScanKeysLater(r: Rules, blocks: seq<BlockEntry>, refs: seq<OutRef>, offsets: seq<nat>, now: nat, later: nat)
    requires now <= later && ScanKeys(r, blocks, refs, offsets, now).Keys?
    ensures ScanKeys(r, blocks, refs, offsets, later) == ScanKeys(r, blocks, refs, offsets, now)
  {
    if offsets != [] {
      ScanKeysLater(r, blocks, refs, offsets[..|offsets| - 1], now, later);
    }
  }

  lemma {:induction false} CheckInputsLater(r: Rules, blocks: seq<BlockEntry>, c: Caches, tx: Tx, n: nat, now: nat, later: nat)
    requires n <= |tx.inputs| && now <= later
    requires CheckInputs(r, blocks, c, tx, n, now) == Pass
    ensures CheckInputs(r, blocks, c, tx, n, later) == Pass
  {
    if n > 0 {
      CheckInputsLater(r, blocks, c, tx, n - 1, now, later);
      var input := tx.inputs[n - 1];
      if input.KeyInput? {
        ScanKeysLater(r, blocks, c.outs[input.amount], Absolute(input.outputIndexes), now, later);
      }
    }
  }

  lemma {:induction false} CheckTxsLater(r: Rules, blocks: seq<BlockEntry>, c: Caches, majorVersion: nat, all: seq<Tx>, n: nat, now: nat, later: nat)
    requires 1 <= n <= |all| && now <= later
    requires CheckTxs(r, blocks, c, majorVersion, all, n, now) == Pass
    ensures CheckTxs(r, blocks, c, majorVersion, all, n, later) == Pass
  {
    if n > 1 {
      CheckTxsLater(r, blocks, c, majorVersion, all, n - 1, now, later);
      var mid := AddAll(c, Post(r.txHash, |blocks|, all[..n - 1]));
      CheckInputsLater(r, blocks, mid, all[n - 1], |all[n - 1].inputs|, now, later);
    }
  }

  /** A block that was once accepted on a chain is accepted on it at any later time, with the same entry. */
  lemma {:induction false} AcceptedStaysAccepted(r: Rules, blocks: seq<BlockEntry>, b: Block, txs: seq<Tx>, now: nat, later: nat)
    requires now <= later && Connect(r, blocks, b, txs, now).Accepted?
    ensures Connect(r, blocks, b, txs, later) == Connect(r, blocks, b, txs, now)
  {
    hide CheckTxs, Rebuild, EntryFor;
    var all := [b.baseTx] + txs;
    CheckTxsLater(r, blocks, Rebuild(r, blocks), b.majorVersion, all, |all|, now, later);
  }

  lemma {:induction false} ChainOkLater(r: Rules, blocks: seq<BlockEntry>, now: nat, later: nat)
    requires now <= later && ChainOk(r, blocks, now)
    ensures ChainOk(r, blocks, later)
  {
    if blocks != [] {
      var n := |blocks| - 1;
      ChainOkLater(r, blocks[..n], now, later);
      AcceptedStaysAccepted(r, blocks[..n], blocks[n].bl, NonCoinbase(blocks[n]), now, later);
    }
  }
}
