/**
 * The timestamps an alternative block is judged by: those of its branch, walked from
 * the tip down, topped up with blocks of the main chain below the fork.
 */
module BranchTimes {
  import opened LedgerTypes
  import opened Validation

  /** Timestamps of the `count` blocks from the top down. */
  function Downward(blocks: seq<BlockEntry>, count: nat): (t: seq<nat>)
    requires count <= |blocks|
    ensures |t| == count
    ensures forall i :: 0 <= i < count ==> t[i] == blocks[|blocks| - 1 - i].bl.timestamp
  {
    seq(count, i requires 0 <= i < count => blocks[|blocks| - 1 - i].bl.timestamp)
  }

  /** How many blocks complete_timestamps_vector takes from height `top` down when `need` are wanted. */
  function Borrowed(top: nat, need: nat): (n: nat)
    ensures n <= top + 1
  {
    if top == 0 then 1 else if top > need then need else top
  }

  function Completed(blocks: seq<BlockEntry>, top: nat, timestamps: seq<nat>, window: nat): seq<nat>
    requires top < |blocks|
  {
    if |timestamps| >= window then timestamps
    else timestamps + Downward(blocks[..top + 1], Borrowed(top, window - |timestamps|))
  }

  /** The timestamps collected for a block on top of `chain`, which hangs on the main chain at height `top`. */
  function BranchTimestamps(r: Rules, blocks: seq<BlockEntry>, chain: seq<BlockEntry>, top: nat): seq<nat>
    requires top < |blocks|
  {
    Completed(blocks, top, Downward(chain, |chain|), r.timestampWindow)
  }

  predicate Reversed(s: seq<nat>, t: seq<nat>) {
    |s| == |t| && forall i :: 0 <= i < |s| ==> s[i] == t[|t| - 1 - i]
  }

  /** Both lists are too short to judge by, or one is the other read backwards. */
  predicate JudgesAlike(window: nat, s: seq<nat>, t: seq<nat>) {
    (|s| < window && |t| < window) || Reversed(s, t)
  }

  /** The branch is no longer than the window, and does not fill it exactly with a block above the first. */
  predicate WindowFits(window: nat, top: nat, length: nat) {
    length <= window && (top == 0 || top + 1 + length != window)
  }

  /** The timestamps a branch is judged by, newest first: its own, then those of the main chain from its parent down. */
  ghost predicate TimesBelow(r: Rules, blocks: seq<BlockEntry>, chain: seq<BlockEntry>, top: nat, t: seq<nat>) {
    var n := |chain|;
    && |t| == (if n >= r.timestampWindow then n
               else if top == 0 then n + 1
               else if n + top <= r.timestampWindow then n + top else r.timestampWindow)
    && (forall k :: 0 <= k < n ==> t[k] == chain[n - 1 - k].bl.timestamp)
    && (forall k :: n <= k < |t| ==> k - n <= top < |blocks| && t[k] == blocks[top - (k - n)].bl.timestamp)
  }

  lemma {:induction false} BranchTimestampsAre(r: Rules, blocks: seq<BlockEntry>, chain: seq<BlockEntry>, top: nat, t: seq<nat>)
    requires top < |blocks|
    ensures TimesBelow(r, blocks, chain, top, t) <==> t == BranchTimestamps(r, blocks, chain, top)
  {
    var s := BranchTimestamps(r, blocks, chain, top);
    assert TimesBelow(r, blocks, chain, top, s);
    if TimesBelow(r, blocks, chain, top, t) {
      assert forall k :: 0 <= k < |t| ==> t[k] == s[k];
    }
  }

  /**
   * A block of a branch is judged by the timestamps it would be judged by at the tip,
   * were the branch connected, exactly when the branch fits the window.
   */
  lemma {:induction false} JudgedAlikeIff(r: Rules, blocks: seq<BlockEntry>, chain: seq<BlockEntry>, top: nat)
    requires top < |blocks|
    ensures var s, t := BranchTimestamps(r, blocks, chain, top), LastTimestamps(r, blocks[..top + 1] + chain);
      JudgesAlike(r.timestampWindow, s, t) <==> WindowFits(r.timestampWindow, top, |chain|)
  {
    var branch := blocks[..top + 1] + chain;
    var s, t := BranchTimestamps(r, blocks, chain, top), LastTimestamps(r, branch);
    assert |branch| == top + 1 + |chain|;
    if |chain| >= r.timestampWindow {
      assert s == Downward(chain, |chain|);
      assert |t| == r.timestampWindow;
    } else {
      assert |s| == |chain| + Borrowed(top, r.timestampWindow - |chain|);
    }
    if WindowFits(r.timestampWindow, top, |chain|) && |branch| >= r.timestampWindow {
      forall i | 0 <= i < |s| ensures s[i] == t[|t| - 1 - i] {
        assert s[i] == branch[|branch| - 1 - i].bl.timestamp;
      }
    }
  }

  /**
   * On a branch that fills the window exactly every timestamp passes, one that the tip
   * would refuse as too early included.
   */
  lemma {:induction false} FullWindowIsNotJudged(r: Rules, blocks: seq<BlockEntry>, chain: seq<BlockEntry>, top: nat,
      b: Block, now: nat)
    requires 0 < top < |blocks| && top + 1 + |chain| == r.timestampWindow
    requires b.timestamp < r.median(LastTimestamps(r, blocks[..top + 1] + chain))
    ensures NotTooEarly(r, BranchTimestamps(r, blocks, chain, top), b.timestamp)
    ensures !TimestampOk(r, blocks[..top + 1] + chain, b, now)
  {
    var branch := blocks[..top + 1] + chain;
    assert |branch| == r.timestampWindow;
    assert |BranchTimestamps(r, blocks, chain, top)| == |chain| + Borrowed(top, r.timestampWindow - |chain|);
  }
}
