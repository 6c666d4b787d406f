/**
 * The records the main chain is made of, and the five containers kept beside it.
 *
 * Hashes, key images, public keys and signatures are opaque identifiers, so they
 * are natural numbers here. Counters are unbounded.
 */
module LedgerTypes {
  type Hash = nat
  type KeyImage = nat
  type Amount = nat

  /** The previous-block hash of the genesis block. */
  const NULL_HASH: Hash := 0

  datatype Input =
    | BaseInput(blockIndex: nat)
    | KeyInput(amount: Amount, outputIndexes: seq<nat>, keyImage: KeyImage)
    | MultisigInput(amount: Amount, signatureCount: nat, outputIndex: nat, term: nat)

  datatype Target =
    | KeyOutput(key: nat)
    | MultisigOutput(keys: seq<nat>, requiredSignatureCount: nat, term: nat)

  datatype Output = Output(amount: Amount, target: Target)

  datatype Tx = Tx(
    version: nat, unlockTime: nat,
    inputs: seq<Input>, outputs: seq<Output>,
    extra: seq<nat>, signatures: seq<seq<nat>>)

  datatype Block = Block(
    majorVersion: nat, minorVersion: nat, nonce: nat, timestamp: nat,
    prev: Hash, baseTx: Tx, txHashes: seq<Hash>)

  datatype TxIndex = TxIndex(block: nat, transaction: nat)

  datatype TxEntry = TxEntry(tx: Tx, globalIndexes: seq<nat>)

  datatype BlockEntry = BlockEntry(
    bl: Block, height: nat, cumulativeSize: nat,
    cumulativeDifficulty: nat, generatedCoins: int,
    transactions: seq<TxEntry>)

  /** One element of a per-amount list of key outputs. */
  datatype OutRef = OutRef(index: TxIndex, output: nat)

  /** One element of a per-amount list of multisignature outputs. */
  datatype MsigUsage = MsigUsage(index: TxIndex, output: nat, isUsed: bool)

  /** Which multisignature output an input spends: its amount and its position in that amount's list. */
  datatype MsigRef = MsigRef(amount: Amount, position: nat)

  datatype Caches = Caches(
    txs: map<Hash, TxIndex>,
    spent: set<KeyImage>,
    outs: map<Amount, seq<OutRef>>,
    msig: map<Amount, seq<MsigUsage>>)

  const EMPTY_CACHES := Caches(map[], {}, map[], map[])

  /** A transaction together with the place and the hash under which it entered the chain. */
  datatype Posted = Posted(id: TxIndex, hash: Hash, tx: Tx)

  function At<T>(m: map<Amount, seq<T>>, a: Amount): seq<T> {
    if a in m then m[a] else []
  }

  predicate NoEmptyList<T>(m: map<Amount, seq<T>>) {
    forall a :: a in m ==> |m[a]| > 0
  }

  function Append<T>(m: map<Amount, seq<T>>, a: Amount, x: T): map<Amount, seq<T>> {
    m[a := At(m, a) + [x]]
  }

  /** Remove the last element of a list, and the list itself once it is empty. */
  function DropLast<T>(m: map<Amount, seq<T>>, a: Amount): map<Amount, seq<T>>
    requires a in m && |m[a]| > 0
  {
    if |m[a]| == 1 then m - {a} else m[a := m[a][..|m[a]| - 1]]
  }

  lemma {:induction false} DropLastUndoesAppend<T>(m: map<Amount, seq<T>>, a: Amount, x: T)
    requires NoEmptyList(m)
    ensures NoEmptyList(Append(m, a, x))
    ensures DropLast(Append(m, a, x), a) == m
  {
    assert (At(m, a) + [x])[..|At(m, a)|] == At(m, a);
  }

  function Images(inputs: seq<Input>): set<KeyImage> {
    set i | 0 <= i < |inputs| && inputs[i].KeyInput? :: inputs[i].keyImage
  }

  function Refs(inputs: seq<Input>): set<MsigRef> {
    set i | 0 <= i < |inputs| && inputs[i].MultisigInput? :: MsigRef(inputs[i].amount, inputs[i].outputIndex)
  }

  predicate DistinctImages(inputs: seq<Input>) {
    forall i, j :: 0 <= i < j < |inputs| && inputs[i].KeyInput? && inputs[j].KeyInput? ==>
      inputs[i].keyImage != inputs[j].keyImage
  }

  predicate DistinctRefs(inputs: seq<Input>) {
    forall i, j :: 0 <= i < j < |inputs| && inputs[i].MultisigInput? && inputs[j].MultisigInput? ==>
      !(inputs[i].amount == inputs[j].amount && inputs[i].outputIndex == inputs[j].outputIndex)
  }

  /** How many signatures the serialized form carries for an input. */
  function SignatureCount(input: Input): nat {
    match input
    case BaseInput(_) => 0
    case KeyInput(_, indexes, _) => |indexes|
    case MultisigInput(_, count, _, _) => count
  }

  /**
   * What every transaction in the pool satisfies: it was deserialized with one
   * signature list per input, and it passed the semantic check made on receipt.
   */
  predicate Semantic(tx: Tx) {
    && |tx.inputs| > 0
    && (forall i :: 0 <= i < |tx.inputs| ==> !tx.inputs[i].BaseInput?)
    && DistinctImages(tx.inputs)
    && DistinctRefs(tx.inputs)
    && |tx.signatures| == |tx.inputs|
    && (forall i :: 0 <= i < |tx.inputs| ==> |tx.signatures[i]| == SignatureCount(tx.inputs[i]))
  }
}
