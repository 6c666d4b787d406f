/**
 * The bounded blocking queue as a state machine. A step is one stretch of code run while
 * the mutex is held: from taking it (on entry, or on waking up) to releasing it (by
 * returning, or by waiting on a condition variable). Threads interleave freely, a
 * notified thread may be overtaken before it gets the mutex, and waits may end spuriously.
 */
module BlockingQueue {
  type Thread = nat

  /**
   * pushing, popping and closing hold the threads asleep on a condition variable; the
   * woken ones have been notified (or woke by themselves) and wait for the mutex. offers
   * keeps the value each pushing thread came with. accepted and taken are the history.
   */
  datatype State<T> = State(
    maxSize: nat, queue: seq<T>, closed: bool, offers: map<Thread, T>,
    pushing: set<Thread>, wokenPush: set<Thread>,
    popping: set<Thread>, wokenPop: set<Thread>,
    closing: set<Thread>, wokenClose: set<Thread>,
    accepted: seq<T>, taken: seq<T>)

  function Initial<T>(maxSize: nat): State<T> {
    State(maxSize, [], false, map[], {}, {}, {}, {}, {}, {}, [], [])
  }

  function Inside<T>(s: State<T>): set<Thread> {
    s.pushing + s.wokenPush + s.popping + s.wokenPop + s.closing + s.wokenClose
  }

  /** What a step is; woken names the thread that notify_one picks, when someone sleeps there. */
  datatype Event<T> =
    | Push(t: Thread, v: T, woken: Thread)
    | PushAgain(t: Thread, woken: Thread)
    | Pop(t: Thread, woken: Thread)
    | PopAgain(t: Thread, woken: Thread)
    | Close(t: Thread, wait: bool)
    | CloseAgain(t: Thread)
    | Spurious(t: Thread)

  datatype Outcome<T> = Waits | Accepted | Refused | Got(v: T) | Drained | Returned | Woke

  predicate Enabled<T>(s: State<T>, e: Event<T>) {
    match e
    case Push(t, _, w) => t !in Inside(s) && (s.popping == {} || w in s.popping)
    case PushAgain(t, w) => t in s.wokenPush && t in s.offers && (s.popping == {} || w in s.popping)
    case Pop(t, w) => t !in Inside(s) && (s.pushing + s.closing == {} || w in s.pushing + s.closing)
    case PopAgain(t, w) => t in s.wokenPop && (s.pushing + s.closing == {} || w in s.pushing + s.closing)
    case Close(t, _) => t !in Inside(s)
    case CloseAgain(t) => t in s.wokenClose
    case Spurious(t) => t in s.pushing + s.popping + s.closing
  }

  // ---- notifications ----

  /** Only who sleeps where may differ. */
  ghost predicate SameData<T>(s: State<T>, s': State<T>) {
    && s'.maxSize == s.maxSize && s'.queue == s.queue && s'.closed == s.closed
    && s'.accepted == s.accepted && s'.taken == s.taken
  }

  function NotifyData<T>(s: State<T>, w: Thread): (s': State<T>)
    ensures SameData(s, s')
  {
    if w in s.popping then s.(popping := s.popping - {w}, wokenPop := s.wokenPop + {w}) else s
  }

  function NotifySpace<T>(s: State<T>, w: Thread): (s': State<T>)
    ensures SameData(s, s')
  {
    if w in s.pushing then s.(pushing := s.pushing - {w}, wokenPush := s.wokenPush + {w})
    else if w in s.closing then s.(closing := s.closing - {w}, wokenClose := s.wokenClose + {w})
    else s
  }

  function NotifyAllSpace<T>(s: State<T>): (s': State<T>)
    ensures SameData(s, s')
  {
    s.(pushing := {}, wokenPush := s.wokenPush + s.pushing, closing := {}, wokenClose := s.wokenClose + s.closing)
  }

  function NotifyAllData<T>(s: State<T>): (s': State<T>)
    ensures SameData(s, s')
  {
    s.(popping := {}, wokenPop := s.wokenPop + s.popping)
  }

  // ---- the code under the mutex ----

  function PushBody<T>(s: State<T>, t: Thread, v: T, w: Thread): (State<T>, Outcome<T>) {
    if s.closed then
      (s.(offers := s.offers - {t}), Refused)
    else if |s.queue| >= s.maxSize then
      (s.(pushing := s.pushing + {t}, offers := s.offers[t := v]), Waits)
    else
      (NotifyData(s.(queue := s.queue + [v], accepted := s.accepted + [v], offers := s.offers - {t}), w), Accepted)
  }

  function PopBody<T>(s: State<T>, t: Thread, w: Thread): (State<T>, Outcome<T>) {
    if s.queue == [] then
      if s.closed then (s, Drained) else (s.(popping := s.popping + {t}), Waits)
    else
      var s' := s.(queue := s.queue[1..], taken := s.taken + [s.queue[0]]);
      (if s.closed && s'.queue == [] then NotifyAllSpace(s') else NotifySpace(s', w), Got(s.queue[0]))
  }

  function AwaitDrain<T>(s: State<T>, t: Thread): (State<T>, Outcome<T>) {
    if s.queue == [] then (s, Returned) else (s.(closing := s.closing + {t}), Waits)
  }

  function CloseBody<T>(s: State<T>, t: Thread, wait: bool): (State<T>, Outcome<T>) {
    var s' := NotifyAllSpace(NotifyAllData(s.(closed := true)));
    if wait then AwaitDrain(s', t) else (s', Returned)
  }

  function Do<T>(s: State<T>, e: Event<T>): (State<T>, Outcome<T>)
    requires Enabled(s, e)
  {
    match e
    case Push(t, v, w) => PushBody(s, t, v, w)
    case PushAgain(t, w) => PushBody(s.(wokenPush := s.wokenPush - {t}), t, s.offers[t], w)
    case Pop(t, w) => PopBody(s, t, w)
    case PopAgain(t, w) => PopBody(s.(wokenPop := s.wokenPop - {t}), t, w)
    case Close(t, wait) => CloseBody(s, t, wait)
    case CloseAgain(t) => AwaitDrain(s.(wokenClose := s.wokenClose - {t}), t)
    case Spurious(t) =>
      (if t in s.popping then NotifyData(s, t) else NotifySpace(s, t), Woke)
  }

  // ---- what every step keeps ----

  /** A thread is in one place at a time; pushing threads keep their value; closers exist only once closed. */
  ghost predicate Places<T>(s: State<T>) {
    && s.pushing !! s.wokenPush !! s.popping !! s.wokenPop !! s.closing !! s.wokenClose
    && s.pushing + s.wokenPush <= s.offers.Keys
    && (s.closing + s.wokenClose != {} ==> s.closed)
  }

  /** Everything accepted was taken in order or is still queued, and the bound is kept. */
  ghost predicate Conserved<T>(s: State<T>) {
    s.accepted == s.taken + s.queue && |s.queue| <= s.maxSize
  }

  /**
   * While a popping thread sleeps, the queue is open and every queued element has a woken
   * popping thread (or one of pops more) coming for it; while a pushing thread sleeps, the
   * queue is open and every free place has a woken pushing thread (or one of pushes more)
   * coming for it; a closer sleeps only while the queue has elements.
   */
  ghost predicate Covered<T>(s: State<T>, pops: nat, pushes: nat) {
    && (s.popping != {} ==> !s.closed && |s.queue| <= |s.wokenPop| + pops)
    && (s.pushing != {} ==> !s.closed && s.maxSize - |s.queue| <= |s.wokenPush| + pushes)
    && (s.closing != {} ==> s.queue != [])
  }

  /** No wake-up is lost. */
  ghost predicate NoLostWakeup<T>(s: State<T>) {
    Covered(s, 0, 0)
  }

  ghost predicate Inv<T>(s: State<T>) {
    Places(s) && Conserved(s) && NoLostWakeup(s)
  }

  lemma {:induction false} PushKeepsPlaces<T>(s: State<T>, t: Thread, v: T, w: Thread)
    requires Places(s) && t !in Inside(s)
    ensures Places(PushBody(s, t, v, w).0)
  {
  }

  lemma {:induction false} PopKeepsPlaces<T>(s: State<T>, t: Thread, w: Thread)
    requires Places(s) && t !in Inside(s)
    ensures Places(PopBody(s, t, w).0)
  {
  }

  lemma {:induction false} CloseKeepsPlaces<T>(s: State<T>, t: Thread, wait: bool)
    requires Places(s) && t !in Inside(s)
    ensures Places(CloseBody(s, t, wait).0)
  {
  }

  lemma {:induction false} StepKeepsPlaces<T>(s: State<T>, e: Event<T>)
    requires Places(s) && Enabled(s, e)
    ensures Places(Do(s, e).0)
  {
    match e
    case Push(t, v, w) => PushKeepsPlaces(s, t, v, w);
    case PushAgain(t, w) => PushKeepsPlaces(s.(wokenPush := s.wokenPush - {t}), t, s.offers[t], w);
    case Pop(t, w) => PopKeepsPlaces(s, t, w);
    case PopAgain(t, w) => PopKeepsPlaces(s.(wokenPop := s.wokenPop - {t}), t, w);
    case Close(t, wait) => CloseKeepsPlaces(s, t, wait);
    case CloseAgain(t) =>
    case Spurious(t) =>
  }

  lemma {:induction false} StepConserves<T>(s: State<T>, e: Event<T>)
    requires Conserved(s) && Enabled(s, e)
    ensures Conserved(Do(s, e).0)
  {
    hide NotifyData, NotifySpace, NotifyAllSpace, NotifyAllData;
    var q := s.queue;
    if q != [] {
      assert s.taken + [q[0]] + q[1..] == s.taken + q;
    }
    assert forall v: T :: s.taken + (q + [v]) == s.taken + q + [v];
  }

  /** A push uses up one woken pushing thread and wakes one popping thread for the new element. */
  lemma {:induction false} PushCovers<T>(s: State<T>, t: Thread, v: T, w: Thread)
    requires s.popping !! s.wokenPop && Covered(s, 0, 1) && (s.popping == {} || w in s.popping)
    ensures Covered(PushBody(s, t, v, w).0, 0, 0)
  {
    var s' := PushBody(s, t, v, w).0;
    if w in s.popping {
      assert |s.wokenPop + {w}| == |s.wokenPop| + 1;
    }
    assert s.closed ==> s'.pushing == {} && s'.popping == {};
  }

  /** A pop uses up one woken popping thread and wakes one pushing thread for the freed place. */
  lemma {:induction false} PopCovers<T>(s: State<T>, t: Thread, w: Thread)
    requires s.pushing !! s.wokenPush && (s.closing != {} ==> s.closed) && Covered(s, 1, 0)
    requires s.pushing + s.closing == {} || w in s.pushing + s.closing
    ensures Covered(PopBody(s, t, w).0, 0, 0)
  {
    if w in s.pushing {
      assert |s.wokenPush + {w}| == |s.wokenPush| + 1;
    }
  }

  lemma {:induction false} StepLosesNoWakeup<T>(s: State<T>, e: Event<T>)
    requires Inv(s) && Enabled(s, e)
    ensures NoLostWakeup(Do(s, e).0)
  {
    match e
    case Push(t, v, w) => PushCovers(s, t, v, w);
    case PushAgain(t, w) =>
      var s1 := s.(wokenPush := s.wokenPush - {t});
      assert |s1.wokenPush| + 1 == |s.wokenPush|;
      PushCovers(s1, t, s.offers[t], w);
    case Pop(t, w) => PopCovers(s, t, w);
    case PopAgain(t, w) =>
      var s1 := s.(wokenPop := s.wokenPop - {t});
      assert |s1.wokenPop| + 1 == |s.wokenPop|;
      PopCovers(s1, t, w);
    case Close(t, wait) =>
    case CloseAgain(t) =>
    case Spurious(t) =>
      assert t in s.popping ==> |s.wokenPop + {t}| == |s.wokenPop| + 1;
      assert t in s.pushing ==> |s.wokenPush + {t}| == |s.wokenPush| + 1;
  }

  // ---- what a single return means ----

  /**
   * pop fails only on a closed, drained queue; push fails only on a closed one; a close that
   * waits returns only when everything accepted has been taken; a popped value is the
   * oldest one not yet taken.
   */
  lemma {:induction false} WhatReturnsMean<T>(s: State<T>, e: Event<T>)
    requires Places(s) && Conserved(s) && Enabled(s, e)
    ensures var (s', r) := Do(s, e);
      && (r.Drained? ==> s'.closed && s'.taken == s'.accepted)
      && (r.Refused? ==> s'.closed && s'.accepted == s.accepted)
      && (r.Accepted? ==> !s.closed && s'.accepted == s.accepted + [if e.Push? then e.v else s.offers[e.t]])
      && (r.Returned? ==> s'.closed && (e.CloseAgain? || e.wait ==> s'.taken == s'.accepted))
      && (r.Got? ==> |s.taken| < |s.accepted| && r.v == s.accepted[|s.taken|] && s'.taken == s.taken + [r.v])
  {
    hide NotifyData, NotifySpace, NotifyAllSpace, NotifyAllData;
    assert e.CloseAgain? ==> s.closed;
    if s.queue != [] {
      assert s.accepted[|s.taken|] == s.queue[0];
    }
  }

  /** Closing is for good, and so is a drained queue: nothing is accepted or handed out afterwards. */
  lemma {:induction false} ClosedStaysClosed<T>(s: State<T>, e: Event<T>)
    requires Inv(s) && Enabled(s, e)
    ensures s.closed ==> Do(s, e).0.closed && Do(s, e).0.accepted == s.accepted
    ensures s.closed && s.queue == [] ==> Do(s, e).0.queue == [] && !Do(s, e).1.Got? && !Do(s, e).1.Waits?
  {
  }

  // ---- whole runs ----

  ghost predicate Possible<T>(s: State<T>, run: seq<Event<T>>)
    decreases |run|
  {
    run == [] || (Enabled(s, run[0]) && Possible(Do(s, run[0]).0, run[1..]))
  }

  function After<T>(s: State<T>, run: seq<Event<T>>): State<T>
    requires Possible(s, run)
    decreases |run|
  {
    if run == [] then s else After(Do(s, run[0]).0, run[1..])
  }

  lemma {:induction false} HistoryGrows<T>(s: State<T>, e: Event<T>)
    requires Enabled(s, e)
    ensures var s' := Do(s, e).0; s.accepted <= s'.accepted && s.taken <= s'.taken && s'.maxSize == s.maxSize
  {
    hide NotifyData, NotifySpace, NotifyAllSpace, NotifyAllData;
  }

  lemma {:induction false} RunKeepsInv<T>(s: State<T>, run: seq<Event<T>>)
    requires Inv(s) && Possible(s, run)
    ensures Inv(After(s, run)) && After(s, run).maxSize == s.maxSize
    ensures s.accepted <= After(s, run).accepted && s.taken <= After(s, run).taken
    decreases |run|
  {
    hide Do, Places, Covered, Conserved;
    if run != [] {
      StepKeepsPlaces(s, run[0]);
      StepConserves(s, run[0]);
      StepLosesNoWakeup(s, run[0]);
      HistoryGrows(s, run[0]);
      RunKeepsInv(Do(s, run[0]).0, run[1..]);
    }
  }

  /** Whatever the interleaving, values come out in the order they went in, none twice, none lost, never more than the bound queued. */
  lemma {:induction false} FirstInFirstOut<T>(maxSize: nat, run: seq<Event<T>>)
    requires Possible(Initial(maxSize), run)
    ensures var s := After(Initial(maxSize), run); s.taken + s.queue == s.accepted && |s.queue| <= maxSize
  {
    RunKeepsInv(Initial(maxSize), run);
  }

  /**
   * Whatever the interleaving, when nobody is on the way to the mutex, nobody sleeps on a
   * condition that holds: sleeping pops find an empty open queue, sleeping pushes a full
   * open one, sleeping closers one that still has elements. So pops and pushes never sleep
   * together unless the bound is zero, and a closed drained queue has no sleeper at all.
   */
  lemma {:induction false} NobodySleepsInVain<T>(maxSize: nat, run: seq<Event<T>>)
    requires Possible(Initial(maxSize), run)
    ensures var s := After(Initial(maxSize), run);
      s.wokenPop == {} && s.wokenPush == {} && s.wokenClose == {} ==>
        && (s.popping != {} ==> !s.closed && s.queue == [])
        && (s.pushing != {} ==> !s.closed && |s.queue| == maxSize)
        && (s.closing != {} ==> s.closed && s.queue != [])
        && (s.popping == {} || s.pushing == {} || maxSize == 0)
        && (s.closed && s.queue == [] ==> Inside(s) == {})
  {
    RunKeepsInv(Initial(maxSize), run);
  }
}
