/** The sizes of machine words. */
module Words {
  const TWO_32: nat := 0x1_0000_0000
  const TWO_64: nat := 0x1_0000_0000_0000_0000

  /** An unsigned 64-bit counter goes from zero to the largest word. */
  function Down(i: nat): nat {
    if i == 0 then TWO_64 - 1 else i - 1
  }

  /** The counter after n steps. */
  function DownBy(i: nat, n: nat): nat
    decreases n
  {
    if n == 0 then i else DownBy(Down(i), n - 1)
  }

  /** Counting down while the counter is at least the bound ends if and only if the bound is not zero. */
  lemma {:induction false} CountdownEndsIff(start: nat, bound: nat)
    ensures (exists n: nat :: DownBy(start, n) < bound) <==> bound >= 1
  {
    if bound >= 1 {
      ReachesZero(start);
      assert DownBy(start, start) < bound;
    }
  }

  lemma {:induction false} ReachesZero(i: nat)
    ensures DownBy(i, i) == 0
  {
    if i > 0 { ReachesZero(i - 1); }
  }
}
