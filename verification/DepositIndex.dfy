/**
 * The running deposit totals: a sparse list that has an entry only for blocks
 * whose net deposit is not zero.
 */
module DepositIndex {
  datatype Entry = Entry(height: nat, amount: int, interest: nat)

  /** What one block contributes: its net deposit and the interest it pays. */
  datatype Delta = Delta(amount: int, interest: nat)

  datatype Totals = Totals(entries: seq<Entry>, blockCount: nat)

  const EMPTY_TOTALS := Totals([], 0)

  function LastAmount(t: Totals): int {
    if t.entries == [] then 0 else t.entries[|t.entries| - 1].amount
  }

  function LastInterest(t: Totals): nat {
    if t.entries == [] then 0 else t.entries[|t.entries| - 1].interest
  }

  function Push(t: Totals, d: Delta): Totals {
    Totals(
      if d.amount == 0 then t.entries
      else t.entries + [Entry(t.blockCount, d.amount + LastAmount(t), d.interest + LastInterest(t))],
      t.blockCount + 1)
  }

  function Pop(t: Totals): Totals
    requires t.blockCount > 0
  {
    var n := |t.entries|;
    Totals(
      if n > 0 && t.entries[n - 1].height == t.blockCount - 1 then t.entries[..n - 1] else t.entries,
      t.blockCount - 1)
  }

  /** The index after the given blocks were pushed onto an empty one. */
  function Build(deltas: seq<Delta>): Totals {
    if deltas == [] then EMPTY_TOTALS else Push(Build(deltas[..|deltas| - 1]), deltas[|deltas| - 1])
  }

  /** The index after the given blocks were pushed onto what it already held. */
  function PushAll(t: Totals, deltas: seq<Delta>): Totals {
    if deltas == [] then t else Push(PushAll(t, deltas[..|deltas| - 1]), deltas[|deltas| - 1])
  }

  lemma {:induction false} PushAllCounts(t: Totals, deltas: seq<Delta>)
    ensures PushAll(t, deltas).blockCount == t.blockCount + |deltas|
    ensures t == EMPTY_TOTALS ==> PushAll(t, deltas) == Build(deltas)
  {
    if deltas != [] { PushAllCounts(t, deltas[..|deltas| - 1]); }
  }

  /** Pushing every block again gives the index of the blocks exactly when nothing was left in it. */
  lemma {:induction false} RebuiltIff(leftover: seq<Delta>, deltas: seq<Delta>)
    ensures PushAll(Build(leftover), deltas) == Build(deltas) <==> leftover == []
  {
    PushAllCounts(Build(leftover), deltas);
    BuildShape(leftover);
    BuildShape(deltas);
  }

  function AmountSum(deltas: seq<Delta>): int {
    if deltas == [] then 0 else AmountSum(deltas[..|deltas| - 1]) + deltas[|deltas| - 1].amount
  }

  function InterestSum(deltas: seq<Delta>): nat {
    if deltas == [] then 0 else InterestSum(deltas[..|deltas| - 1]) + deltas[|deltas| - 1].interest
  }

  predicate Rising(entries: seq<Entry>) {
    forall i, j :: 0 <= i < j < |entries| ==> entries[i].height < entries[j].height
  }

  lemma {:induction false} BuildShape(deltas: seq<Delta>)
    ensures Build(deltas).blockCount == |deltas|
    ensures Rising(Build(deltas).entries)
    ensures forall i :: 0 <= i < |Build(deltas).entries| ==> Build(deltas).entries[i].height < |deltas|
  {
    if deltas != [] { BuildShape(deltas[..|deltas| - 1]); }
  }

  /** Popping the last block gives back exactly the index before it. */
  lemma {:induction false} PopUndoesPush(deltas: seq<Delta>, d: Delta)
    ensures Build(deltas + [d]) == Push(Build(deltas), d)
    ensures Push(Build(deltas), d).blockCount > 0
    ensures Pop(Push(Build(deltas), d)) == Build(deltas)
  {
    assert (deltas + [d])[..|deltas|] == deltas;
    BuildShape(deltas);
  }

  /** The full deposit amount is the sum of all net deposits. */
  lemma {:induction false} FullAmountIsSum(deltas: seq<Delta>)
    ensures LastAmount(Build(deltas)) == AmountSum(deltas)
  {
    if deltas != [] { FullAmountIsSum(deltas[..|deltas| - 1]); }
  }

  lemma {:induction false} RecordedInterest(deltas: seq<Delta>)
    ensures LastInterest(Build(deltas)) <= InterestSum(deltas)
    ensures LastInterest(Build(deltas)) == InterestSum(deltas) <==>
      forall i :: 0 <= i < |deltas| && deltas[i].amount == 0 ==> deltas[i].interest == 0
  {
    if deltas != [] {
      var init := deltas[..|deltas| - 1];
      RecordedInterest(init);
      assert forall i :: 0 <= i < |init| ==> init[i] == deltas[i];
      assert (forall i :: 0 <= i < |deltas| && deltas[i].amount == 0 ==> deltas[i].interest == 0) <==>
        && (forall i :: 0 <= i < |init| && init[i].amount == 0 ==> init[i].interest == 0)
        && (deltas[|deltas| - 1].amount == 0 ==> deltas[|deltas| - 1].interest == 0);
    }
  }

  /** Interest is lost: a block that spends one deposit and makes another of the same amount. */
  lemma {:induction false} InterestCanBeLost()
    ensures var deltas := [Delta(5, 1), Delta(0, 7)];
      LastInterest(Build(deltas)) == 1 && InterestSum(deltas) == 8
  {
    var deltas := [Delta(5, 1), Delta(0, 7)];
    assert deltas[..1] == [Delta(5, 1)] && deltas[..1][..0] == [];
  }

  /** How many entries are at or below a height: what upper_bound finds. */
  function UpperBound(entries: seq<Entry>, height: nat): (n: nat)
    requires Rising(entries)
    ensures n <= |entries|
    ensures forall i :: 0 <= i < n ==> entries[i].height <= height
    ensures forall i :: n <= i < |entries| ==> entries[i].height > height
  {
    if entries == [] then 0
    else if entries[|entries| - 1].height <= height then |entries|
    else UpperBound(entries[..|entries| - 1], height)
  }

  function AmountAt(t: Totals, height: nat): int
    requires Rising(t.entries)
  {
    if t.blockCount == 0 then 0
    else
      var n := UpperBound(t.entries, height);
      if n == 0 then 0 else t.entries[n - 1].amount
  }

  lemma {:induction false} EntriesArePrefix(deltas: seq<Delta>, n: nat)
    requires n <= |deltas|
    ensures Build(deltas[..n]).entries <= Build(deltas).entries
    ensures forall i :: |Build(deltas[..n]).entries| <= i < |Build(deltas).entries| ==> Build(deltas).entries[i].height >= n
  {
    if n < |deltas| {
      var init := deltas[..|deltas| - 1];
      EntriesArePrefix(init, n);
      assert init[..n] == deltas[..n];
      BuildShape(init);
    } else {
      assert deltas[..n] == deltas;
    }
  }

  predicate SplitsAt(entries: seq<Entry>, n: nat, height: nat) {
    && n <= |entries|
    && (forall i :: 0 <= i < n ==> entries[i].height < height)
    && (forall i :: n <= i < |entries| ==> entries[i].height >= height)
  }

  lemma {:induction false} SplitIsUnique(entries: seq<Entry>, n: nat, m: nat, height: nat)
    requires SplitsAt(entries, n, height) && SplitsAt(entries, m, height)
    ensures n == m
  {
    assert n < |entries| ==> entries[n].height >= height;
    assert m < |entries| ==> entries[m].height >= height;
  }

  /** The amount at a height is the sum of the net deposits up to and including it. */
  lemma {:induction false} AmountAtIsPrefixSum(deltas: seq<Delta>, height: nat)
    ensures Rising(Build(deltas).entries)
    ensures AmountAt(Build(deltas), height) == AmountSum(deltas[..if height < |deltas| then height + 1 else |deltas|])
  {
    var n := if height < |deltas| then height + 1 else |deltas|;
    BuildShape(deltas);
    BuildShape(deltas[..n]);
    EntriesArePrefix(deltas, n);
    FullAmountIsSum(deltas[..n]);
    var entries, low := Build(deltas).entries, Build(deltas[..n]).entries;
    var u := UpperBound(entries, height);
    assert forall i :: 0 <= i < |low| ==> entries[i] == low[i];
    SplitIsUnique(entries, u, |low|, n);
  }

  /** Where dropping every block from a height on must cut the list. */
  lemma {:induction false} CutAt(deltas: seq<Delta>, from: nat, it: nat)
    requires from <= |deltas| && SplitsAt(Build(deltas).entries, it, from)
    ensures Totals(Build(deltas).entries[..it], from) == Build(deltas[..from])
  {
    hide Build;
    EntriesArePrefix(deltas, from);
    BuildShape(deltas[..from]);
    var entries, low := Build(deltas).entries, Build(deltas[..from]).entries;
    assert forall i :: 0 <= i < |low| ==> entries[i] == low[i];
    SplitIsUnique(entries, it, |low|, from);
    assert entries[..it] == low;
  }

  /** The index as an object. */
  class Index {
    var index: seq<Entry>
    var blockCount: nat

    function Model(): Totals
      reads this
    {
      Totals(index, blockCount)
    }

    constructor ()
      ensures Model() == EMPTY_TOTALS
    {
      index, blockCount := [], 0;
    }

    method PushBlock(amount: int, interest: nat)
      modifies this
      ensures Model() == Push(old(Model()), Delta(amount, interest))
    {
      var lastAmount, lastInterest := 0, 0;
      if |index| > 0 {
        lastAmount, lastInterest := index[|index| - 1].amount, index[|index| - 1].interest;
      }
      if amount != 0 {
        index := index + [Entry(blockCount, amount + lastAmount, interest + lastInterest)];
      }
      blockCount := blockCount + 1;
    }

    method PopBlock()
      requires blockCount > 0
      modifies this
      ensures Model() == Pop(old(Model()))
    {
      blockCount := blockCount - 1;
      if |index| > 0 && index[|index| - 1].height == blockCount {
        index := index[..|index| - 1];
      }
    }

    /** Dropping many blocks at once lands where popping them one by one would. */
    method PopBlocks(from: nat, ghost deltas: seq<Delta>) returns (dropped: nat)
      requires Model() == Build(deltas)
      modifies this
      ensures var n := if from < |deltas| then from else |deltas|;
        Model() == Build(deltas[..n]) && dropped == |deltas| - n
    {
      hide Build;
      BuildShape(deltas);
      if from >= blockCount {
        assert deltas[..|deltas|] == deltas;
        return 0;
      }
      var it := UpperBound(index, from);
      if it != 0 {
        it := it - 1;
        if index[it].height != from {
          it := it + 1;
        }
      }
      CutAt(deltas, from, it);
      index := index[..it];
      dropped := blockCount - from;
      blockCount := blockCount - dropped;
    }
  }
}
