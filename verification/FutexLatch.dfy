/**
  The futex latch: any number of threads, each counting down, waiting, or counting down
  and then waiting.  `FutexWait` sleeps only if the word still holds the expected value,
  as one atomic step; `FutexWake` sends every sleeper back to its load.
 */
module FutexLatch {
  import opened Sums

  /** What a thread calls: `CountDown`, `Wait`, or `ArriveAndWait`. */
  datatype Role = CountDown | Wait | ArriveAndWait
  {
    predicate Waits() { this != CountDown }
    predicate Counts() { this != Wait }
  }

  datatype Pc =
    | Arriving(role: Role)      // about to fetch_sub
    | Waking(role: Role)        // took the count from 1 to 0, about to FutexWake
    | Loading                   // about to load the count
    | Entering(seen: int)       // about to call FutexWait with the value loaded
    | Sleeping
    | Returned(role: Role)

  datatype State = State(count: int, threads: seq<Pc>)

  datatype Action =
    | Go(t: nat)            // the next step of thread t
    | Spurious(t: nat)      // FutexWait returns to a sleeper nobody woke

  predicate Enabled(s: State, a: Action)
  {
    && a.t < |s.threads|
    && match a
       case Go(t) => !s.threads[t].Sleeping? && !s.threads[t].Returned?
       case Spurious(t) => s.threads[t].Sleeping?
  }

  function AfterCountDown(role: Role): Pc
  {
    if role.Waits() then Loading else Returned(role)
  }

  function Woken(threads: seq<Pc>): (r: seq<Pc>)
    ensures |r| == |threads|
    ensures forall t :: 0 <= t < |threads| ==> r[t] == if threads[t].Sleeping? then Loading else threads[t]
  {
    seq(|threads|, t requires 0 <= t < |threads| => if threads[t].Sleeping? then Loading else threads[t])
  }

  /** `roles[t]` is the role of thread t: it fixes what `Wait` returns to. */
  function Next(s: State, a: Action, roles: seq<Role>): State
    requires Enabled(s, a) && |roles| == |s.threads|
  {
    var t := a.t;
    match s.threads[t]
    case Arriving(role) =>
      State(s.count - 1, s.threads[t := if s.count == 1 then Waking(role) else AfterCountDown(role)])
    case Waking(role) => s.(threads := Woken(s.threads)[t := AfterCountDown(role)])
    case Loading => s.(threads := s.threads[t := if s.count == 0 then Returned(roles[t]) else Entering(s.count)])
    case Entering(seen) => s.(threads := s.threads[t := if s.count == seen then Sleeping else Loading])
    case Sleeping => s.(threads := s.threads[t := Loading])
  }

  function Init(k: int, roles: seq<Role>): State
  {
    State(k, seq(|roles|, t requires 0 <= t < |roles| => if roles[t].Counts() then Arriving(roles[t]) else Loading))
  }

  predicate Steps(s: State, a: Action, roles: seq<Role>, s': State)
  {
    Enabled(s, a) && |roles| == |s.threads| && s' == Next(s, a, roles)
  }

  ghost predicate Run(k: int, roles: seq<Role>, actions: seq<Action>, s: State)
    decreases |actions|
  {
    if actions == [] then
      s == Init(k, roles)
    else
      var last := |actions| - 1;
      exists s0 :: Run(k, roles, actions[..last], s0) && Steps(s0, actions[last], roles, s)
  }

  // ---------- Safety ----------

  function ArrivingWeight(): Pc -> nat
  {
    (pc: Pc) => if pc.Arriving? then 1 else 0
  }

  /** Calls of the count-down half still to come. */
  function StillToArrive(s: State): nat
  {
    Total(ArrivingWeight(), s.threads)
  }

  function CountsWeight(): Role -> nat
  {
    (role: Role) => if role.Counts() then 1 else 0
  }

  /** How many threads count down. */
  function Counters(roles: seq<Role>): nat
  {
    Total(CountsWeight(), roles)
  }

  /** Thread t is where its role can take it. */
  predicate RoleOk(pc: Pc, role: Role)
  {
    match pc
    case Arriving(r) => r == role && role.Counts()
    case Waking(r) => r == role && role.Counts()
    case Returned(r) => r == role
    case Entering(seen) => role.Waits() && seen != 0
    case Loading => role.Waits()
    case Sleeping => role.Waits()
  }

  /** A `Wait` has returned. */
  predicate WaitReturned(pc: Pc)
  {
    pc.Returned? && pc.role.Waits()
  }

  predicate Inv(s: State, k: int, roles: seq<Role>)
  {
    && |s.threads| == |roles|
    && (forall t :: 0 <= t < |roles| ==> RoleOk(s.threads[t], roles[t]))
    && s.count == k - Counters(roles) + StillToArrive(s)
  }

  /** No lost wakeup: while somebody sleeps the count is positive or a wake is on its way. */
  predicate WakeupPending(s: State)
  {
    (exists t :: 0 <= t < |s.threads| && s.threads[t].Sleeping?) ==>
      s.count > 0 || exists t :: 0 <= t < |s.threads| && s.threads[t].Waking?
  }

  /** No `Wait` has returned while the count was positive. */
  predicate NoEarlyReturn(s: State)
  {
    (exists t :: 0 <= t < |s.threads| && WaitReturned(s.threads[t])) ==> s.count <= 0
  }

  lemma {:induction false} InitArrivals(k: int, roles: seq<Role>)
    ensures StillToArrive(Init(k, roles)) == Counters(roles)
    decreases |roles|
  {
    if roles != [] {
      assert Init(k, roles).threads[1..] == Init(k, roles[1..]).threads;
      InitArrivals(k, roles[1..]);
    }
  }

  lemma WokenArrivals(threads: seq<Pc>)
    ensures Total(ArrivingWeight(), Woken(threads)) == Total(ArrivingWeight(), threads)
  {
    TotalGrowth(ArrivingWeight(), threads, ArrivingWeight(), Woken(threads), 0);
    TotalGrowth(ArrivingWeight(), Woken(threads), ArrivingWeight(), threads, 0);
  }

  lemma StepKeepsRoles(s: State, a: Action, roles: seq<Role>)
    requires Enabled(s, a) && |s.threads| == |roles|
    requires forall t :: 0 <= t < |roles| ==> RoleOk(s.threads[t], roles[t])
    ensures |Next(s, a, roles).threads| == |roles|
    ensures forall t :: 0 <= t < |roles| ==> RoleOk(Next(s, a, roles).threads[t], roles[t])
  {
    assert RoleOk(s.threads[a.t], roles[a.t]);
  }

  lemma StepKeepsInv(s: State, a: Action, k: int, roles: seq<Role>)
    requires Inv(s, k, roles) && Enabled(s, a)
    ensures Inv(Next(s, a, roles), k, roles)
  {
    var s' := Next(s, a, roles);
    var threads := if s.threads[a.t].Waking? then Woken(s.threads) else s.threads;
    StepKeepsRoles(s, a, roles);
    WokenArrivals(s.threads);
    TotalUpdate(ArrivingWeight(), threads, a.t, s'.threads[a.t]);
    assert RoleOk(s.threads[a.t], roles[a.t]);
  }

  lemma StepKeepsWakeup(s: State, a: Action, k: int, roles: seq<Role>)
    requires Inv(s, k, roles) && Enabled(s, a) && Counters(roles) <= k
    requires WakeupPending(s) && NoEarlyReturn(s)
    ensures WakeupPending(Next(s, a, roles)) && NoEarlyReturn(Next(s, a, roles))
  {
    var s' := Next(s, a, roles);
    assert RoleOk(s.threads[a.t], roles[a.t]);
    if t :| 0 <= t < |s'.threads| && s'.threads[t].Sleeping? {
      if s.threads[a.t].Arriving? && s'.count <= 0 {
        assert s.threads[t].Sleeping?;
        if w :| 0 <= w < |s.threads| && s.threads[w].Waking? {
          assert s'.threads[a.t].Waking? || s'.threads[w].Waking?;
        } else {
          assert s'.threads[a.t].Waking?;
        }
      } else if s.threads[t].Sleeping? && s.count <= 0 {
        var w :| 0 <= w < |s.threads| && s.threads[w].Waking?;
        assert s'.threads[w].Waking?;
      }
    }
  }
}
