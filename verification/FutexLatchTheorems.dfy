/** Safety, termination and the exact liveness condition of the futex latch, over all runs. */
module FutexLatchTheorems {
  import opened FutexLatch
  import opened Sums

  // ---------- Safety ----------

  lemma {:induction false} RunKeepsInv(k: int, roles: seq<Role>, actions: seq<Action>, s: State)
    requires Run(k, roles, actions, s)
    ensures Inv(s, k, roles)
    ensures Counters(roles) <= k ==> WakeupPending(s) && NoEarlyReturn(s)
    decreases |actions|
  {
    if actions == [] {
      InitArrivals(k, roles);
    } else {
      var last := |actions| - 1;
      var s0 :| Run(k, roles, actions[..last], s0) && Steps(s0, actions[last], roles, s);
      RunKeepsInv(k, roles, actions[..last], s0);
      StepKeepsInv(s0, actions[last], k, roles);
      if Counters(roles) <= k {
        StepKeepsWakeup(s0, actions[last], k, roles);
      }
    }
  }

  /**
    With at most `k` count-downs, spurious wakeups allowed: while a thread sleeps the count is
    positive or a wake is on its way, and a `Wait` that has returned saw all `k` count-downs.
   */
  lemma NoLostWakeup(k: int, roles: seq<Role>, actions: seq<Action>, s: State, t: nat)
    requires Run(k, roles, actions, s) && Counters(roles) <= k && t < |s.threads|
    ensures s.threads[t].Sleeping? ==> s.count > 0 || exists w :: 0 <= w < |s.threads| && s.threads[w].Waking?
    ensures WaitReturned(s.threads[t]) ==> Counters(roles) - StillToArrive(s) == k
  {
    RunKeepsInv(k, roles, actions, s);
  }

  /** A sleeper woken for no reason looks again, and returns if the count is zero by then. */
  lemma WokenSleeperLooks(s: State, t: nat, roles: seq<Role>)
    requires t < |s.threads| == |roles| && s.threads[t].Sleeping?
    ensures Enabled(s, Spurious(t))
    ensures
      var s1 := Next(s, Spurious(t), roles);
      Enabled(s1, Go(t))
      && Next(s1, Go(t), roles).threads[t] == if s.count == 0 then Returned(roles[t]) else Entering(s.count)
  {
  }

  // ---------- The wake ----------

  function WakeIn(s: State, a: Action): nat
  {
    if a.t < |s.threads| && s.threads[a.t].Waking? then 1 else 0
  }

  /** A run in which `wakes` calls of FutexWake have been made. */
  ghost predicate WakingRun(k: int, roles: seq<Role>, actions: seq<Action>, s: State, wakes: nat)
    decreases |actions|
  {
    if actions == [] then
      s == Init(k, roles) && wakes == 0
    else
      var last := |actions| - 1;
      exists s0 ::
        && Steps(s0, actions[last], roles, s)
        && WakeIn(s0, actions[last]) <= wakes
        && WakingRun(k, roles, actions[..last], s0, wakes - WakeIn(s0, actions[last]))
  }

  function WakingWeight(): Pc -> nat
  {
    (pc: Pc) => if pc.Waking? then 1 else 0
  }

  /** One wake is due once the count has gone from 1 to 0. */
  function WakesDue(k: int, count: int): nat
  {
    if count <= 0 < k then 1 else 0
  }

  lemma WokenWaking(threads: seq<Pc>)
    ensures Total(WakingWeight(), Woken(threads)) == Total(WakingWeight(), threads)
  {
    TotalGrowth(WakingWeight(), threads, WakingWeight(), Woken(threads), 0);
    TotalGrowth(WakingWeight(), Woken(threads), WakingWeight(), threads, 0);
  }

  lemma StepWakes(s: State, a: Action, roles: seq<Role>, k: int, s': State)
    requires Steps(s, a, roles, s') && s.count <= k
    ensures s'.count <= k
    ensures Total(WakingWeight(), s'.threads) + WakeIn(s, a) + WakesDue(k, s.count)
         == Total(WakingWeight(), s.threads) + WakesDue(k, s'.count)
  {
    var threads := if s.threads[a.t].Waking? then Woken(s.threads) else s.threads;
    WokenWaking(s.threads);
    TotalUpdate(WakingWeight(), threads, a.t, s'.threads[a.t]);
  }

  /**
    In every run FutexWake is called, or about to be, exactly once from the moment the count
    has gone from 1 to 0, and never before or again.
   */
  lemma {:induction false} WakesExactlyOnce(k: int, roles: seq<Role>, actions: seq<Action>, s: State, wakes: nat)
    requires WakingRun(k, roles, actions, s, wakes)
    ensures s.count <= k && wakes + Total(WakingWeight(), s.threads) == WakesDue(k, s.count)
    decreases |actions|
  {
    if actions == [] {
      TotalZero(WakingWeight(), s.threads);
    } else {
      var last := |actions| - 1;
      var s0 :| Steps(s0, actions[last], roles, s) && WakeIn(s0, actions[last]) <= wakes
        && WakingRun(k, roles, actions[..last], s0, wakes - WakeIn(s0, actions[last]));
      WakesExactlyOnce(k, roles, actions[..last], s0, wakes - WakeIn(s0, actions[last]));
      StepWakes(s0, actions[last], roles, k, s);
    }
  }

  /** Every run has such a count. */
  lemma {:induction false} RunHasWakes(k: int, roles: seq<Role>, actions: seq<Action>, s: State) returns (wakes: nat)
    requires Run(k, roles, actions, s)
    ensures WakingRun(k, roles, actions, s, wakes)
    decreases |actions|
  {
    if actions == [] {
      wakes := 0;
    } else {
      var last := |actions| - 1;
      var s0 :| Run(k, roles, actions[..last], s0) && Steps(s0, actions[last], roles, s);
      var before := RunHasWakes(k, roles, actions[..last], s0);
      wakes := before + WakeIn(s0, actions[last]);
      assert wakes - WakeIn(s0, actions[last]) == before;
    }
  }

  // ---------- Termination ----------

  /** How much work a thread can still cause: a stale `seen` costs a trip round the loop. */
  function Work(pc: Pc, count: int, n: nat): nat
  {
    match pc
    case Arriving(_) => 4 * n + 4
    case Waking(_) => 2 * n + 3
    case Loading => 2
    case Entering(seen) => if seen == count then 1 else 3
    case Sleeping => 0
    case Returned(_) => 0
  }

  function WorkWeight(count: int, n: nat): Pc -> nat
  {
    (pc: Pc) => Work(pc, count, n)
  }

  function Measure(s: State): nat
  {
    Total(WorkWeight(s.count, |s.threads|), s.threads)
  }

  lemma StepDecreases(s: State, t: nat, roles: seq<Role>)
    requires Enabled(s, Go(t)) && |roles| == |s.threads|
    ensures Measure(Next(s, Go(t), roles)) < Measure(s)
  {
    var s' := Next(s, Go(t), roles);
    var n := |s.threads|;
    var slack := if s.threads[t].Arriving? || s.threads[t].Waking? then 2 else 0;
    TotalChange(WorkWeight(s.count, n), s.threads, WorkWeight(s'.count, n), s'.threads, t, slack);
  }

  predicate Calm(actions: seq<Action>)
  {
    forall i :: 0 <= i < |actions| ==> actions[i].Go?
  }

  lemma {:induction false} RunIsBounded(k: int, roles: seq<Role>, actions: seq<Action>, s: State)
    requires Run(k, roles, actions, s) && Calm(actions)
    ensures |actions| + Measure(s) <= Measure(Init(k, roles)) && |s.threads| == |roles|
    decreases |actions|
  {
    if actions != [] {
      var last := |actions| - 1;
      var s0 :| Run(k, roles, actions[..last], s0) && Steps(s0, actions[last], roles, s);
      RunIsBounded(k, roles, actions[..last], s0);
      StepDecreases(s0, actions[last].t, roles);
    }
  }

  /** Whatever the scheduler does, without spurious wakeups `n` threads take at most `n (4n + 4)` steps. */
  lemma EveryScheduleEnds(k: int, roles: seq<Role>, actions: seq<Action>, s: State)
    requires Run(k, roles, actions, s) && Calm(actions)
    ensures |actions| <= (4 * |roles| + 4) * |roles|
  {
    RunIsBounded(k, roles, actions, s);
    var n := |roles|;
    var s0 := Init(k, roles);
    var zero := (pc: Pc) => 0 as nat;
    TotalZero(zero, s0.threads);
    TotalGrowth(zero, s0.threads, WorkWeight(s0.count, n), s0.threads, 4 * n + 4);
  }

  // ---------- When everybody returns ----------

  predicate Stuck(s: State)
  {
    forall t :: 0 <= t < |s.threads| ==> s.threads[t].Sleeping? || s.threads[t].Returned?
  }

  predicate AllReturned(s: State)
  {
    forall t :: 0 <= t < |s.threads| ==> s.threads[t].Returned?
  }

  predicate HasWaiter(roles: seq<Role>)
  {
    exists t :: 0 <= t < |roles| && roles[t].Waits()
  }

  ghost predicate Reachable(k: int, roles: seq<Role>, s: State)
  {
    exists actions :: Run(k, roles, actions, s)
  }

  lemma ReachableInv(k: int, roles: seq<Role>, s: State)
    requires Reachable(k, roles, s)
    ensures Inv(s, k, roles)
    ensures Counters(roles) <= k ==> WakeupPending(s) && NoEarlyReturn(s)
  {
    var actions :| Run(k, roles, actions, s);
    RunKeepsInv(k, roles, actions, s);
  }

  lemma ReachableStep(k: int, roles: seq<Role>, s: State, a: Action)
    requires Reachable(k, roles, s) && Enabled(s, a) && |roles| == |s.threads|
    ensures Reachable(k, roles, Next(s, a, roles))
  {
    var actions :| Run(k, roles, actions, s);
    assert (actions + [a])[..|actions|] == actions;
    assert Steps(s, a, roles, Next(s, a, roles));
    assert Run(k, roles, actions + [a], Next(s, a, roles));
  }

  /** Exactly `k` count-downs: nobody is left asleep. */
  lemma StuckIsFinished(k: int, roles: seq<Role>, s: State)
    requires Reachable(k, roles, s) && Stuck(s) && (Counters(roles) == k || !HasWaiter(roles))
    ensures AllReturned(s)
  {
    ReachableInv(k, roles, s);
    assert StillToArrive(s) == 0 by { TotalZero(ArrivingWeight(), s.threads); }
    forall t | 0 <= t < |s.threads| ensures s.threads[t].Returned? {
      assert RoleOk(s.threads[t], roles[t]);
    }
  }

  predicate NoneReturnedFromWait(s: State)
  {
    forall t :: 0 <= t < |s.threads| ==> !WaitReturned(s.threads[t])
  }

  /** Let all count-downs happen before any waiter moves. */
  lemma {:induction false} ArriveFirst(k: int, roles: seq<Role>, s: State) returns (s': State)
    requires Reachable(k, roles, s) && NoneReturnedFromWait(s)
    ensures Reachable(k, roles, s') && NoneReturnedFromWait(s') && StillToArrive(s') == 0
    decreases StillToArrive(s)
  {
    ReachableInv(k, roles, s);
    if StillToArrive(s) == 0 {
      s' := s;
    } else {
      var t := TotalPositive(ArrivingWeight(), s.threads);
      var s1 := Next(s, Go(t), roles);
      ReachableStep(k, roles, s, Go(t));
      TotalUpdate(ArrivingWeight(), s.threads, t, s1.threads[t]);
      s' := ArriveFirst(k, roles, s1);
    }
  }

  /** From there the count stays off zero, so no `Wait` returns however long the rest run. */
  lemma {:induction false} RunToStuck(k: int, roles: seq<Role>, s: State) returns (s': State)
    requires Reachable(k, roles, s) && NoneReturnedFromWait(s) && StillToArrive(s) == 0 && Counters(roles) != k
    ensures Reachable(k, roles, s') && NoneReturnedFromWait(s') && Stuck(s')
    decreases Measure(s)
  {
    ReachableInv(k, roles, s);
    if Stuck(s) {
      s' := s;
    } else {
      var t :| 0 <= t < |s.threads| && !(s.threads[t].Sleeping? || s.threads[t].Returned?);
      TotalAtLeast(ArrivingWeight(), s.threads, t);
      var s1 := Next(s, Go(t), roles);
      ReachableStep(k, roles, s, Go(t));
      ReachableInv(k, roles, s1);
      assert RoleOk(s.threads[t], roles[t]);
      StepDecreases(s, t, roles);
      s' := RunToStuck(k, roles, s1);
    }
  }

  /**
    The latch lets everybody go in every run if and only if exactly `k` threads count down
    (or nobody waits at all): with fewer the waiters sleep for ever, with more the count
    can pass zero before a waiter looks.
   */
  lemma EverybodyReturnsIffExactCount(k: int, roles: seq<Role>)
    ensures (forall s :: Reachable(k, roles, s) && Stuck(s) ==> AllReturned(s))
            <==> Counters(roles) == k || !HasWaiter(roles)
  {
    if Counters(roles) == k || !HasWaiter(roles) {
      forall s | Reachable(k, roles, s) && Stuck(s) ensures AllReturned(s) {
        StuckIsFinished(k, roles, s);
      }
    } else {
      var s0 := Init(k, roles);
      assert Run(k, roles, [], s0);
      var s1 := ArriveFirst(k, roles, s0);
      var s2 := RunToStuck(k, roles, s1);
      ReachableInv(k, roles, s2);
      var t :| 0 <= t < |roles| && roles[t].Waits();
      assert RoleOk(s2.threads[t], roles[t]);
      assert !s2.threads[t].Returned?;
    }
  }
}
