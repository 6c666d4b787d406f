/**
 * The lock-free guard that lets one pool update run at a time and re-runs it when the
 * pool changed meanwhile. Any number of threads interleave; a step is one atomic load
 * or one compare-and-swap, and a weak compare-and-swap may fail for no reason.
 */
module PoolUpdateGuard {
  type Thread = nat
  type Time = nat

  datatype Guard = NONE | UPDATING | UPDATE_REQUIRED

  /** Where a thread stands; an absent thread is outside poolChanged. */
  datatype Phase =
    | Entered(start: Time)                                // about to load synchronized
    | Synced(start: Time)                                 // about to load observersCounter
    | Called(start: Time)                                 // about to load the guard in beginUpdate
    | Beginning(start: Time, loaded: Guard, readAt: Time) // in beginUpdate's loop
    | Updating                                            // beginUpdate returned true
    | Ending(seen: Guard)                                 // in endUpdate's loop

  /**
   * now counts steps; since is when the explorer last became watchful; lastBegin is when an
   * update last began; reports are the times poolChanged was notified; turnedAway are the times
   * of the calls that left because the explorer did not watch.
   */
  datatype State = State(
    guard: Guard, synchronized: bool, observers: nat, phases: map<Thread, Phase>,
    now: Time, since: Time, lastBegin: Time, reports: set<Time>, turnedAway: set<Time>)

  const INITIAL := State(NONE, false, 0, map[], 1, 0, 0, {}, {})

  /** poolChanged goes on only when the explorer is synchronized and someone observes it. */
  predicate Watching(s: State) {
    s.synchronized && s.observers != 0
  }

  datatype Event =
    | Settle(synchronized: bool, observers: nat) // the two conditions change
    | Report(t: Thread)              // the node notifies a pool change
    | LoadSynchronized(t: Thread)
    | LoadObservers(t: Thread)
    | Load(t: Thread)                // beginUpdate's first load
    | TryBegin(t: Thread, weak: bool) // one round of beginUpdate's loop; weak: the swap fails spuriously
    | Finish(t: Thread)              // the update is over; endUpdate's first load
    | TryEnd(t: Thread, weak: bool)  // one round of endUpdate's loop

  predicate Enabled(s: State, e: Event) {
    match e
    case Settle(_, _) => true
    case Report(t) => t !in s.phases
    case LoadSynchronized(t) => t in s.phases && s.phases[t].Entered?
    case LoadObservers(t) => t in s.phases && s.phases[t].Synced?
    case Load(t) => t in s.phases && s.phases[t].Called?
    case TryBegin(t, _) => t in s.phases && s.phases[t].Beginning?
    case Finish(t) => t in s.phases && s.phases[t].Updating?
    case TryEnd(t, _) => t in s.phases && s.phases[t].Ending?
  }

  function Put(s: State, t: Thread, p: Phase): State {
    s.(phases := s.phases[t := p], now := s.now + 1)
  }

  function Leave(s: State, t: Thread): State {
    s.(phases := s.phases - {t}, now := s.now + 1)
  }

  function TurnAway(s: State, t: Thread): State
    requires t in s.phases && (s.phases[t].Entered? || s.phases[t].Synced?)
  {
    Leave(s, t).(turnedAway := s.turnedAway + {s.phases[t].start})
  }

  function Settled(s: State, synchronized: bool, observers: nat): State {
    var s' := s.(synchronized := synchronized, observers := observers, now := s.now + 1);
    if !Watching(s) && Watching(s') then s'.(since := s.now) else s'
  }

  function BeginRound(s: State, t: Thread, weak: bool): State
    requires t in s.phases && s.phases[t].Beginning?
  {
    var p := s.phases[t];
    match p.loaded
    case NONE =>
      if s.guard == NONE && !weak then Put(s, t, Updating).(guard := UPDATING, lastBegin := s.now)
      else Put(s, t, Beginning(p.start, s.guard, s.now))
    case UPDATING =>
      if s.guard == UPDATING && !weak then Leave(s, t).(guard := UPDATE_REQUIRED)
      else Put(s, t, Beginning(p.start, s.guard, s.now))
    case UPDATE_REQUIRED => Leave(s, t)
  }

  /** endUpdate returns whether the state it replaced asked for another update; then poolChanged is called again. */
  function EndRound(s: State, t: Thread, weak: bool): State
    requires t in s.phases && s.phases[t].Ending?
  {
    var seen := s.phases[t].seen;
    if s.guard != seen || weak then Put(s, t, Ending(s.guard))
    else if seen == UPDATE_REQUIRED then Put(s, t, Entered(s.now)).(guard := NONE)
    else Leave(s, t).(guard := NONE)
  }

  function Do(s: State, e: Event): State
    requires Enabled(s, e)
  {
    match e
    case Settle(synchronized, observers) => Settled(s, synchronized, observers)
    case Report(t) => Put(s, t, Entered(s.now)).(reports := s.reports + {s.now})
    case LoadSynchronized(t) => if s.synchronized then Put(s, t, Synced(s.phases[t].start)) else TurnAway(s, t)
    case LoadObservers(t) => if s.observers != 0 then Put(s, t, Called(s.phases[t].start)) else TurnAway(s, t)
    case Load(t) => Put(s, t, Beginning(s.phases[t].start, s.guard, s.now))
    case TryBegin(t, weak) => BeginRound(s, t, weak)
    case Finish(t) => Put(s, t, Ending(s.guard))
    case TryEnd(t, weak) => EndRound(s, t, weak)
  }

  // ---- at most one update ----

  predicate Holds(p: Phase) {
    p.Updating? || p.Ending?
  }

  predicate Holder(s: State, t: Thread) {
    t in s.phases && Holds(s.phases[t])
  }

  /** The guard is taken exactly while one thread holds it, and endUpdate never sees NONE. */
  ghost predicate Exclusive(s: State) {
    && (forall t, u :: Holder(s, t) && Holder(s, u) ==> t == u)
    && (s.guard != NONE <==> exists t :: Holder(s, t))
    && (forall t :: Holder(s, t) && s.phases[t].Ending? ==> s.phases[t].seen != NONE)
  }

  predicate Steps(e: Event, t: Thread) {
    !e.Settle? && e.t == t
  }

  lemma {:induction false} OthersStay(s: State, e: Event, t: Thread)
    requires Enabled(s, e) && !Steps(e, t)
    ensures Holder(Do(s, e), t) <==> Holder(s, t)
    ensures Holder(s, t) ==> Do(s, e).phases[t] == s.phases[t]
  {
  }

  /** A free guard is taken only by coming to hold it, and the holder lets it go only by freeing it. */
  lemma {:induction false} StepperHolds(s: State, e: Event, t: Thread)
    requires Enabled(s, e) && Steps(e, t) && (Holder(s, t) ==> s.guard != NONE)
    requires Holder(s, t) && s.phases[t].Ending? ==> s.phases[t].seen != NONE
    ensures var s' := Do(s, e);
      && (if !Holder(s, t) && s.guard != NONE then !Holder(s', t) && s'.guard != NONE
          else Holder(s', t) <==> s'.guard != NONE)
      && (Holder(s', t) && s'.phases[t].Ending? ==> s'.phases[t].seen != NONE)
  {
  }

  lemma {:induction false} StepKeepsExclusive(s: State, e: Event)
    requires Exclusive(s) && Enabled(s, e)
    ensures Exclusive(Do(s, e))
  {
    var s' := Do(s, e);
    hide Do, Holder;
    forall t | Holder(s', t) || Holder(s, t)
      ensures !Steps(e, t) ==> Holder(s, t) && Holder(s', t) && s'.phases[t] == s.phases[t]
    {
      if !Steps(e, t) {
        OthersStay(s, e, t);
      }
    }
    if e.Settle? {
      assert s'.guard == s.guard;
    } else {
      StepperHolds(s, e, e.t);
    }
  }

  // ---- no report is lost ----

  predicate Trying(p: Phase, since: Time) {
    (p.Entered? || p.Synced? || p.Called? || p.Beginning?) && p.start >= since
  }

  /**
   * An update began after the moment, or the guard demands one, or a thread that came at or
   * after it is still trying, or one that did was turned away.
   */
  ghost predicate Answered(s: State, moment: Time) {
    || s.lastBegin > moment
    || s.guard == UPDATE_REQUIRED
    || (exists t :: t in s.phases && Trying(s.phases[t], moment))
    || exists a :: a in s.turnedAway && a >= moment
  }

  predicate Ordered(p: Phase, now: Time) {
    match p
    case Entered(start) => start < now
    case Synced(start) => start < now
    case Called(start) => start < now
    case Beginning(start, _, readAt) => start < readAt < now
    case Updating => true
    case Ending(_) => true
  }

  /**
   * Times lie in the past, nobody was turned away while the explorer has been watching, every
   * report is answered, and so is every moment at which a thread still looping read UPDATE_REQUIRED.
   */
  ghost predicate NothingLost(s: State) {
    && s.lastBegin < s.now && s.since < s.now
    && (forall a :: a in s.turnedAway ==> a < s.now && (Watching(s) ==> a < s.since))
    && (forall t :: t in s.phases ==> Ordered(s.phases[t], s.now))
    && (forall m :: m in s.reports ==> m < s.now && Answered(s, m))
    && (forall t :: t in s.phases && s.phases[t].Beginning? && s.phases[t].loaded == UPDATE_REQUIRED ==>
          Answered(s, s.phases[t].readAt))
  }

  /**
   * What was answered stays answered. The delicate case is a thread leaving because it had
   * read UPDATE_REQUIRED: the moment of that read is itself answered, by someone else.
   */
  lemma {:induction false} StaysAnswered(s: State, e: Event, moment: Time)
    requires NothingLost(s) && Enabled(s, e) && moment < s.now && Answered(s, moment)
    ensures Answered(Do(s, e), moment)
  {
    var s' := Do(s, e);
    if e.Settle? {
      assert s'.phases == s.phases;
    } else if s.lastBegin > moment {
      assert s'.lastBegin > moment;
    } else if exists a :: a in s.turnedAway && a >= moment {
      assert s.turnedAway <= s'.turnedAway;
    } else if s.guard == UPDATE_REQUIRED {
      if s'.guard != UPDATE_REQUIRED {
        assert Trying(s'.phases[e.t], moment);
      }
    } else {
      var u :| u in s.phases && Trying(s.phases[u], moment);
      if u != e.t {
        assert s'.phases[u] == s.phases[u];
      } else {
        TrierStaysAnswered(s, e, moment);
      }
    }
  }

  /** The thread that answers a moment takes a step. */
  lemma {:induction false} TrierStaysAnswered(s: State, e: Event, moment: Time)
    requires NothingLost(s) && Enabled(s, e) && !e.Settle? && s.guard != UPDATE_REQUIRED
    requires e.t in s.phases && Trying(s.phases[e.t], moment)
    ensures Answered(Do(s, e), moment)
  {
    var s', u := Do(s, e), e.t;
    if e.TryBegin? && s.phases[u].loaded == UPDATE_REQUIRED {
      var x := s.phases[u].readAt;
      assert x > moment && Answered(s, x);
      if exists a :: a in s.turnedAway && a >= x {
        assert s.turnedAway <= s'.turnedAway;
      } else if s.lastBegin <= x {
        var w :| w in s.phases && Trying(s.phases[w], x);
        assert w != u;
        assert s'.phases[w] == s.phases[w];
      }
    } else if u in s'.phases && !s'.phases[u].Updating? {
      assert Trying(s'.phases[u], moment);
    } else if !e.TryBegin? {
      assert s.phases[u].start in s'.turnedAway;
    }
  }

  lemma {:induction false} StepKeepsOrder(s: State, e: Event)
    requires NothingLost(s) && Enabled(s, e)
    ensures var s' := Do(s, e);
      && s'.lastBegin < s'.now && s'.since < s'.now
      && (forall a :: a in s'.turnedAway ==> a < s'.now && (Watching(s') ==> a < s'.since))
      && (forall t :: t in s'.phases ==> Ordered(s'.phases[t], s'.now))
      && s.now < s'.now
      && (forall m :: m in s'.reports ==> m in s.reports || (m == s.now && e.Report?))
  {
    hide Answered;
  }

  lemma {:induction false} NewReportIsAnswered(s: State, t: Thread)
    requires t !in s.phases
    ensures Answered(Do(s, Report(t)), s.now)
  {
    var s' := Do(s, Report(t));
    assert Trying(s'.phases[t], s.now);
  }

  /** A thread that has read UPDATE_REQUIRED either had read it before this step or reads it now. */
  lemma {:induction false} FreshReadIsAnswered(s: State, e: Event, t: Thread)
    requires Enabled(s, e) && t in Do(s, e).phases
    requires Do(s, e).phases[t].Beginning? && Do(s, e).phases[t].loaded == UPDATE_REQUIRED
    ensures (t in s.phases && s.phases[t] == Do(s, e).phases[t]) || Answered(Do(s, e), Do(s, e).phases[t].readAt)
  {
    if !e.Settle? && t == e.t {
      assert s.guard == Do(s, e).guard == UPDATE_REQUIRED;
    }
  }

  lemma {:induction false} StepLosesNothing(s: State, e: Event)
    requires NothingLost(s) && Enabled(s, e)
    ensures NothingLost(Do(s, e))
  {
    var s' := Do(s, e);
    StepKeepsOrder(s, e);
    hide Answered, Do;
    forall m | m in s'.reports
      ensures m < s'.now && Answered(s', m)
    {
      if m in s.reports {
        StaysAnswered(s, e, m);
      } else {
        NewReportIsAnswered(s, e.t);
      }
    }
    forall t | t in s'.phases && s'.phases[t].Beginning? && s'.phases[t].loaded == UPDATE_REQUIRED
      ensures Answered(s', s'.phases[t].readAt)
    {
      FreshReadIsAnswered(s, e, t);
      if t in s.phases && s.phases[t] == s'.phases[t] {
        StaysAnswered(s, e, s.phases[t].readAt);
      }
    }
  }

  // ---- whole runs ----

  ghost predicate Possible(s: State, run: seq<Event>)
    decreases |run|
  {
    run == [] || (Enabled(s, run[0]) && Possible(Do(s, run[0]), run[1..]))
  }

  function After(s: State, run: seq<Event>): State
    requires Possible(s, run)
    decreases |run|
  {
    if run == [] then s else After(Do(s, run[0]), run[1..])
  }

  lemma {:induction false} RunKeeps(s: State, run: seq<Event>)
    requires Exclusive(s) && NothingLost(s) && Possible(s, run)
    ensures Exclusive(After(s, run)) && NothingLost(After(s, run))
    decreases |run|
  {
    if run != [] {
      StepKeepsExclusive(s, run[0]);
      StepLosesNothing(s, run[0]);
      RunKeeps(Do(s, run[0]), run[1..]);
    }
  }

  /** Whatever the interleaving, two threads never update at once and endUpdate never finds the guard free. */
  lemma {:induction false} OneUpdateAtATime(run: seq<Event>)
    requires Possible(INITIAL, run)
    ensures var s := After(INITIAL, run);
      && (forall t, u :: Holder(s, t) && Holder(s, u) ==> t == u)
      && (forall t :: t in s.phases && s.phases[t].Ending? ==> s.guard != NONE && s.phases[t].seen != NONE)
  {
    RunKeeps(INITIAL, run);
    var s := After(INITIAL, run);
    forall t | t in s.phases && s.phases[t].Ending?
      ensures s.guard != NONE
    {
      assert Holder(s, t);
    }
  }

  /**
   * Whatever the interleaving, once every thread has left, a report that no later update answers
   * has a call that came at or after it and was turned away; and none was turned away since the
   * explorer was last found watching.
   */
  lemma {:induction false} QuietMeansUpToDate(run: seq<Event>)
    requires Possible(INITIAL, run) && After(INITIAL, run).phases == map[]
    ensures var s := After(INITIAL, run);
      && s.guard == NONE
      && (forall m :: m in s.reports && s.lastBegin <= m ==> exists a :: a in s.turnedAway && a >= m)
      && (Watching(s) ==> forall m :: m in s.reports && m >= s.since ==> s.lastBegin > m)
  {
    RunKeeps(INITIAL, run);
    var s := After(INITIAL, run);
    assert forall m :: m in s.reports ==> Answered(s, m);
  }

  lemma {:induction false} AfterOne(s: State, e: Event)
    requires Enabled(s, e)
    ensures Possible(s, [e]) && After(s, [e]) == Do(s, e)
  {
    hide Do, Enabled;
    assert [e][1..] == [];
  }

  /** A report that comes before the explorer watches is answered by no update. */
  lemma {:induction false} EarlyReportIsDropped(t: Thread)
    ensures var run := [Report(t), LoadSynchronized(t), Settle(true, 1)];
      && Possible(INITIAL, run)
      && var s := After(INITIAL, run);
      Watching(s) && s.phases == map[] && s.reports == {1} && s.turnedAway == {1} && s.lastBegin == 0
  {
    var s1 := Do(INITIAL, Report(t));
    var s2 := Do(s1, LoadSynchronized(t));
    var last := Settle(true, 1);
    assert s2.phases == map[];
    assert [LoadSynchronized(t), last][1..] == [last];
    assert [Report(t), LoadSynchronized(t), last][1..] == [LoadSynchronized(t), last];
    AfterOne(s2, last);
    assert Possible(s1, [LoadSynchronized(t), last]) && After(s1, [LoadSynchronized(t), last]) == After(s2, [last]);
  }
}
