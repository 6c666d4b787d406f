/**
 * The shared countdown that closes a queue when the last of a group of threads is done.
 * A call is two atomic steps, a test of the counter and a decrement; the counter is an
 * unsigned 64-bit integer that wraps.
 */
module GroupClose {
  import opened Words

  type Thread = nat

  /** passed: threads past the test, not yet past the decrement. calls, decrements and closes count what happened. */
  datatype State = State(count: nat, passed: set<Thread>, calls: nat, decrements: nat, closes: nat)

  datatype Event = Test(t: Thread) | Decrement(t: Thread)

  function Initial(groupSize: nat): State {
    State(groupSize, {}, 0, 0, 0)
  }

  predicate Enabled(s: State, e: Event) {
    match e
    case Test(t) => t !in s.passed
    case Decrement(t) => t in s.passed
  }

  function Do(s: State, e: Event): State
    requires Enabled(s, e)
  {
    match e
    case Test(t) =>
      if s.count == 0 then s.(calls := s.calls + 1) else s.(calls := s.calls + 1, passed := s.passed + {t})
    case Decrement(t) =>
      State((s.count - 1) % TWO_64, s.passed - {t}, s.calls, s.decrements + 1,
            if s.count == 1 then s.closes + 1 else s.closes)
  }

  ghost predicate Possible(s: State, run: seq<Event>)
    decreases |run|
  {
    run == [] || (Enabled(s, run[0]) && Possible(Do(s, run[0]), run[1..]))
  }

  function After(s: State, run: seq<Event>): State
    requires Possible(s, run)
    decreases |run|
  {
    if run == [] then s else After(Do(s, run[0]), run[1..])
  }

  /** How often the counter passes from one to zero in the given number of decrements. */
  function Closes(groupSize: nat, decrements: nat): nat {
    if groupSize == 0 || decrements < groupSize then 0 else 1 + (decrements - groupSize) / TWO_64
  }

  ghost predicate Inv(groupSize: nat, s: State) {
    && s.count == (groupSize - s.decrements) % TWO_64
    && (groupSize == 0 ==> s.passed == {} && s.decrements == 0)
    && s.closes == Closes(groupSize, s.decrements)
    && s.decrements + |s.passed| <= s.calls
    && (s.calls <= groupSize ==> s.decrements + |s.passed| == s.calls)
  }

  lemma {:induction false} NextCloses(groupSize: nat, decrements: nat)
    requires 0 < groupSize < TWO_64
    ensures Closes(groupSize, decrements + 1) ==
            Closes(groupSize, decrements) + if (groupSize - decrements) % TWO_64 == 1 then 1 else 0
  {
    var d := decrements - groupSize;
    if d >= 0 {
      var q, m := d / TWO_64, d % TWO_64;
      assert (-d) % TWO_64 == if m == 0 then 0 else TWO_64 - m;
      assert (d + 1) / TWO_64 == if m + 1 == TWO_64 then q + 1 else q;
    } else {
      assert -d % TWO_64 == -d;
    }
  }

  lemma {:induction false} OneLess(x: int)
    ensures (x % TWO_64 - 1) % TWO_64 == (x - 1) % TWO_64
  {
  }

  lemma {:induction false} SmallIsItself(x: int)
    requires 0 <= x < TWO_64
    ensures x % TWO_64 == x
  {
  }

  lemma {:induction false} StepKeepsInv(groupSize: nat, s: State, e: Event)
    requires groupSize < TWO_64 && Inv(groupSize, s) && Enabled(s, e)
    ensures Inv(groupSize, Do(s, e))
  {
    hide Closes;
    match e
    case Test(t) =>
      if s.calls < groupSize {
        SmallIsItself(groupSize - s.decrements);
      }
      assert s.count != 0 ==> |s.passed + {t}| == |s.passed| + 1;
    case Decrement(t) =>
      assert groupSize > 0;
      NextCloses(groupSize, s.decrements);
      OneLess(groupSize - s.decrements);
      assert |s.passed - {t}| + 1 == |s.passed|;
  }

  lemma {:induction false} RunKeepsInv(groupSize: nat, s: State, run: seq<Event>)
    requires groupSize < TWO_64 && Inv(groupSize, s) && Possible(s, run)
    ensures Inv(groupSize, After(s, run))
    decreases |run|
  {
    if run != [] {
      StepKeepsInv(groupSize, s, run[0]);
      RunKeepsInv(groupSize, Do(s, run[0]), run[1..]);
    }
  }

  /**
   * Used by a group of its own size, the counter closes the queue exactly once, and exactly
   * when the last member has finished its call; a group of none never closes it.
   */
  lemma {:induction false} ClosesWithTheLastMember(groupSize: nat, run: seq<Event>)
    requires groupSize < TWO_64 && Possible(Initial(groupSize), run)
    requires After(Initial(groupSize), run).calls <= groupSize
    ensures var s := After(Initial(groupSize), run);
      && s.closes <= 1
      && (s.closes == 1 <==> groupSize > 0 && s.calls == groupSize && s.passed == {})
  {
    RunKeepsInv(groupSize, Initial(groupSize), run);
  }

  /**
   * With any number of callers, the queue is never closed before groupSize calls got through,
   * and it has been closed exactly once if and only if the decrements have reached groupSize
   * and have not gone round the whole range of the counter since.
   */
  lemma {:induction false} ClosedOnceIff(groupSize: nat, run: seq<Event>)
    requires groupSize < TWO_64 && Possible(Initial(groupSize), run)
    ensures var s := After(Initial(groupSize), run);
      && (s.closes >= 1 ==> s.calls >= groupSize > 0)
      && (s.closes == 1 <==> groupSize > 0 && groupSize <= s.decrements < groupSize + TWO_64)
  {
    RunKeepsInv(groupSize, Initial(groupSize), run);
    var d := After(Initial(groupSize), run).decrements;
    if groupSize > 0 && d >= groupSize {
      assert (d - groupSize) / TWO_64 == 0 <==> d - groupSize < TWO_64;
    }
  }

  /**
   * One caller too many can still get in between the test and the decrement: the counter then
   * wraps instead of staying at zero.
   */
  lemma {:induction false} ExtraCallerCanWrap()
    ensures var run := [Test(0), Test(1), Decrement(0), Decrement(1)];
      Possible(Initial(1), run) && After(Initial(1), run).count == TWO_64 - 1
  {
    var s0 := Initial(1);
    var s1 := Do(s0, Test(0));
    var s2 := Do(s1, Test(1));
    var s3 := Do(s2, Decrement(0));
    var s4 := Do(s3, Decrement(1));
    var run := [Test(0), Test(1), Decrement(0), Decrement(1)];
    assert run[1..] == [Test(1), Decrement(0), Decrement(1)];
    assert run[1..][1..] == [Decrement(0), Decrement(1)];
    assert run[1..][1..][1..] == [Decrement(1)];
    assert run[1..][1..][1..][1..] == [];
    assert Possible(s4, []) && After(s4, []) == s4;
    assert Possible(s3, [Decrement(1)]) && After(s3, [Decrement(1)]) == s4;
    assert Possible(s2, [Decrement(0), Decrement(1)]) && After(s2, [Decrement(0), Decrement(1)]) == s4;
    assert Possible(s1, run[1..]) && After(s1, run[1..]) == s4;
  }

  /** The counter is back at zero exactly when the decrements differ from groupSize by a multiple of 2^64. */
  lemma {:induction false} ZeroIff(groupSize: nat, run: seq<Event>)
    requires groupSize < TWO_64 && Possible(Initial(groupSize), run)
    ensures var s := After(Initial(groupSize), run);
      s.count == 0 <==> (s.decrements - groupSize) % TWO_64 == 0
  {
    RunKeepsInv(groupSize, Initial(groupSize), run);
  }
}
