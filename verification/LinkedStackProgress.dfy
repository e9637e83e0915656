/**
  The linked stack is lock-free: a compare-and-exchange that fails for a reason has been
  overtaken by one that succeeded, so the work wasted on retries is bounded by the work done.
 */
module LinkedStackProgress {
  import opened LinkedStack
  import opened LinkedStackTheorems
  import opened Sums

  /** A successful compare-and-exchange: the only events that change the head. */
  predicate Success(e: Event) { e.PushDone? || e.Unlinked? }

  /**
    A compare-and-exchange that found another head: it goes round again, or it is a pop's and
    the head it found is null.
   */
  predicate Failure(a: Action, e: Event)
  {
    ((e.PushRetry? || e.PopRetry?) && !e.spurious) || (e.PopEmpty? && a.Advance?)
  }

  /** What a run amounts to: steps, operations begun, successes and failures. */
  datatype Tally = Tally(steps: nat, begins: nat, successes: nat, failures: nat)
  {
    function Add(a: Action, e: Event): Tally
    {
      Tally(steps + 1,
            begins + (if a.Advance? then 0 else 1),
            successes + (if Success(e) then 1 else 0),
            failures + (if Failure(a, e) then 1 else 0))
    }
  }

  function Count(actions: seq<Action>, log: seq<Event>): Tally
    requires |log| == |actions|
  {
    if actions == [] then Tally(0, 0, 0, 0)
    else
      var last := |actions| - 1;
      Count(actions[..last], log[..last]).Add(actions[last], log[last])
  }

  predicate NoneSpurious(actions: seq<Action>)
  {
    forall i :: 0 <= i < |actions| && actions[i].Advance? ==> !actions[i].spurious
  }

  /** The head this operation has seen is no longer the head. */
  predicate Stale(s: State, pc: Pc)
  {
    match pc
    case Loaded(_, _, seen) => seen != s.head
    case Linked(node, _) => node in s.heap && s.heap[node].next != s.head
    case Looking(top) => top != s.head
    case Swinging(top, _) => top != s.head
    case _ => false
  }

  function StaleWeight(s: State): Pc -> nat
  {
    (pc: Pc) => if Stale(s, pc) then 1 else 0
  }

  /** The operation has not taken effect yet. */
  function PendingWeight(): Pc -> nat
  {
    (pc: Pc) => if pc.Pushing() || pc.Looking? || pc.Swinging? then 1 else 0
  }

  /** Steps left if no compare-and-exchange fails. */
  function StepsLeft(pc: Pc): nat
  {
    match pc
    case Idle => 0
    case Allocated(_, _) => 3
    case Loaded(_, _, _) => 2
    case Linked(_, _) => 1
    case Looking(_) => 4
    case Swinging(_, _) => 3
    case Detached(_) => 2
    case Deleting(_, _) => 1
  }

  function LeftWeight(): Pc -> nat
  {
    (pc: Pc) => StepsLeft(pc)
  }

  // ---------- No operation waits for another ----------

  /**
    In every state every thread can take a step: start any push, at any free address, or a pop
    if it is idle, and go on with its operation if it is not, whether or not its exchange is to
    fail for no reason.  A pop that starts on an empty stack answers at once.
   */
  lemma NonBlocking(s: State, t: nat, value: Value, addr: Addr, spurious: bool)
    requires t < |s.threads|
    ensures !s.threads[t].Idle? ==> Enabled(s, Advance(t, spurious))
    ensures s.threads[t].Idle? && addr != NULL && addr !in s.heap ==> Enabled(s, BeginPush(t, value, addr))
    ensures s.threads[t].Idle? ==> Enabled(s, BeginPop(t))
    ensures s.threads[t].Idle? && s.head == NULL ==> Apply(s, BeginPop(t)) == Next(s, PopEmpty)
  {
  }

  // ---------- When an exchange succeeds ----------

  /** About to compare and exchange. */
  predicate Exchanging(pc: Pc) { pc.Linked? || pc.Swinging? }

  /**
    An exchange succeeds exactly when it does not fail for no reason and the head is the one
    the operation has seen.  Otherwise the head stays, a push goes on with the head it found,
    and so does a pop unless that is null, where it answers empty.
   */
  lemma ExchangeSucceedsIff(s: State, t: nat, spurious: bool, s': State, e: Event)
    requires Steps(s, Advance(t, spurious), s', e) && Exchanging(s.threads[t])
    ensures Success(e) <==> !spurious && !Stale(s, s.threads[t])
    ensures !Success(e) ==> s'.head == s.head && !Stale(s', s'.threads[t])
    ensures !Success(e) && s.threads[t].Linked? ==> s'.threads[t] == s.threads[t]
    ensures !Success(e) && s.threads[t].Swinging? ==>
              && (e.PopEmpty? <==> s.head == NULL)
              && s'.threads[t] == if s.head == NULL then Idle else Looking(s.head)
  {
  }

  // ---------- One step ----------

  /** A step leaves the node of another thread's push as it was. */
  lemma OthersUntouched(s: State, chain: seq<Addr>, a: Action, s': State, e: Event, u: nat)
    requires Disjoint(s, chain) && Steps(s, a, s', e) && u < |s.threads| && u != a.t && s.threads[u].Linked?
    ensures s.threads[u].node in s.heap && s.threads[u].node in s'.heap
    ensures s'.heap[s.threads[u].node] == s.heap[s.threads[u].node]
  {
    var node := s.threads[u].node;
    assert s.threads[u].Owned() == node;
    assert s.threads[a.t].Owning() ==> s.threads[a.t].Owned() != node;
  }

  lemma OwnStale(s: State, chain: seq<Addr>, a: Action, s': State, e: Event)
    requires Disjoint(s, chain) && Steps(s, a, s', e) && !Success(e) && (a.Advance? ==> !a.spurious)
    ensures s'.head == s.head
    ensures (if Stale(s', s'.threads[a.t]) then 1 else 0) + (if Failure(a, e) then 1 else 0)
         <= (if Stale(s, s.threads[a.t]) then 1 else 0)
  {
  }

  lemma OthersStale(s: State, chain: seq<Addr>, a: Action, s': State, e: Event, u: nat)
    requires Disjoint(s, chain) && Steps(s, a, s', e) && !Success(e) && u < |s.threads| && u != a.t
    requires s'.head == s.head
    ensures u < |s'.threads| && s'.threads[u] == s.threads[u]
    ensures Stale(s', s.threads[u]) == Stale(s, s.threads[u])
  {
    if s.threads[u].Linked? {
      OthersUntouched(s, chain, a, s', e, u);
    }
  }

  lemma QuietStepStale(s: State, chain: seq<Addr>, a: Action, s': State, e: Event)
    requires Disjoint(s, chain) && Steps(s, a, s', e) && !Success(e) && (a.Advance? ==> !a.spurious)
    ensures Total(StaleWeight(s'), s'.threads) + (if Failure(a, e) then 1 else 0) <= Total(StaleWeight(s), s.threads)
  {
    OwnStale(s, chain, a, s', e);
    StepShape(s, a, s', e);
    assert Total(StaleWeight(s'), s'.threads) + StaleWeight(s)(s.threads[a.t])
        <= Total(StaleWeight(s), s.threads) + StaleWeight(s')(s'.threads[a.t]) by {
      forall u | 0 <= u < |s.threads| && u != a.t
        ensures StaleWeight(s')(s'.threads[u]) <= StaleWeight(s)(s.threads[u]) + 0
      {
        OthersStale(s, chain, a, s', e, u);
      }
      TotalChange(StaleWeight(s), s.threads, StaleWeight(s'), s'.threads, a.t, 0);
    }
  }

  lemma SuccessStale(s: State, a: Action, s': State, e: Event)
    requires Steps(s, a, s', e) && Success(e)
    ensures Total(StaleWeight(s'), s'.threads) <= Total(StaleWeight(s), s.threads) + (|s.threads| - 1)
  {
    TotalChange(StaleWeight(s), s.threads, StaleWeight(s'), s'.threads, a.t, 1);
  }

  lemma StepPending(s: State, a: Action, s': State, e: Event)
    requires Steps(s, a, s', e)
    ensures Total(PendingWeight(), s'.threads) + (if Success(e) then 1 else 0)
         <= Total(PendingWeight(), s.threads) + (if a.Advance? then 0 else 1)
  {
    StepShape(s, a, s', e);
    TotalUpdate(PendingWeight(), s.threads, a.t, s'.threads[a.t]);
  }

  lemma OwnLeft(s: State, a: Action, s': State, e: Event)
    requires Steps(s, a, s', e) && (a.Advance? ==> !a.spurious)
    ensures StepsLeft(s'.threads[a.t]) + 1
         <= StepsLeft(s.threads[a.t]) + (if a.Advance? then 0 else 5) + (if Failure(a, e) then 2 else 0)
  {
  }

  lemma StepLeft(s: State, a: Action, s': State, e: Event)
    requires Steps(s, a, s', e) && (a.Advance? ==> !a.spurious)
    ensures Total(LeftWeight(), s'.threads) + 1
         <= Total(LeftWeight(), s.threads) + (if a.Advance? then 0 else 5) + (if Failure(a, e) then 2 else 0)
  {
    StepShape(s, a, s', e);
    OwnLeft(s, a, s', e);
    TotalUpdate(LeftWeight(), s.threads, a.t, s'.threads[a.t]);
  }

  // ---------- Whole runs ----------

  /** Failures are paid for by successes, successes by operations begun, steps by both. */
  predicate Paid(s: State, c: Tally)
  {
    && (|s.threads| > 0 ==> c.failures + Total(StaleWeight(s), s.threads) <= c.successes * (|s.threads| - 1))
    && c.successes + Total(PendingWeight(), s.threads) <= c.begins
    && c.steps + Total(LeftWeight(), s.threads) <= 5 * c.begins + 2 * c.failures
  }

  lemma StepStale(s: State, chain: seq<Addr>, a: Action, s': State, e: Event, c: Tally)
    requires Disjoint(s, chain) && Steps(s, a, s', e) && (a.Advance? ==> !a.spurious)
    requires c.failures + Total(StaleWeight(s), s.threads) <= c.successes * (|s.threads| - 1)
    ensures c.Add(a, e).failures + Total(StaleWeight(s'), s'.threads) <= c.Add(a, e).successes * (|s.threads| - 1)
  {
    if Success(e) {
      SuccessStale(s, a, s', e);
      var n := |s.threads| - 1;
      assert (c.successes + 1) * n == c.successes * n + n;
    } else {
      QuietStepStale(s, chain, a, s', e);
    }
  }

  lemma StepPaid(s: State, chain: seq<Addr>, a: Action, s': State, e: Event, c: Tally)
    requires Disjoint(s, chain) && Steps(s, a, s', e) && (a.Advance? ==> !a.spurious)
    requires Paid(s, c)
    ensures Paid(s', c.Add(a, e))
  {
    StepShape(s, a, s', e);
    StepStale(s, chain, a, s', e, c);
    StepPending(s, a, s', e);
    StepLeft(s, a, s', e);
  }

  lemma InitPaid(n: nat)
    ensures Paid(Init(n), Tally(0, 0, 0, 0))
  {
    TotalZero(StaleWeight(Init(n)), Init(n).threads);
    TotalZero(PendingWeight(), Init(n).threads);
    TotalZero(LeftWeight(), Init(n).threads);
  }

  lemma ReachedPaid(n: nat, poppers: set<nat>, actions: seq<Action>, s: State, log: seq<Event>,
                    a: Action, s': State, e: Event, c: Tally)
    requires |poppers| <= 1 && Run(n, poppers, actions, s, log)
    requires Steps(s, a, s', e) && (a.Advance? ==> !a.spurious) && Paid(s, c)
    ensures Paid(s', c.Add(a, e))
  {
    var popper := SolePopper(poppers);
    var chain := RunRefines(n, poppers, popper, actions, s, log);
    StepPaid(s, chain, a, s', e, c);
  }

  lemma {:induction false} RunPaid(n: nat, poppers: set<nat>, actions: seq<Action>, s: State, log: seq<Event>)
    requires |poppers| <= 1 && Run(n, poppers, actions, s, log) && NoneSpurious(actions)
    ensures |log| == |actions| && Paid(s, Count(actions, log))
    decreases |actions|
  {
    if actions == [] {
      InitPaid(n);
    } else {
      var last := |actions| - 1;
      var before, log0 := actions[..last], log[..last];
      var s0 :| Run(n, poppers, before, s0, log0) && Steps(s0, actions[last], s, log[last]);
      RunPaid(n, poppers, before, s0, log0);
      ReachedPaid(n, poppers, before, s0, log0, actions[last], s, log[last], Count(before, log0));
    }
  }

  /**
    Lock-freedom with an explicit bound: among `n` threads, failures never exceed `n - 1`
    for each success, and a run without spurious failures that begins `b` operations takes
    at most `(2n + 3) b` steps.  So no finite set of operations can run for ever.
   */
  lemma LockFreedom(n: nat, poppers: set<nat>, actions: seq<Action>, s: State, log: seq<Event>)
    requires n > 0 && |poppers| <= 1 && Run(n, poppers, actions, s, log) && NoneSpurious(actions)
    ensures |log| == |actions| == Count(actions, log).steps
    ensures Count(actions, log).failures <= Count(actions, log).successes * (n - 1)
    ensures Count(actions, log).successes <= Count(actions, log).begins
    ensures |actions| <= (2 * n + 3) * Count(actions, log).begins
  {
    RunPaid(n, poppers, actions, s, log);
    var popper := SolePopper(poppers);
    var chain := RunRefines(n, poppers, popper, actions, s, log);
    CountsSteps(actions, log);
    StepBound(n, Count(actions, log));
  }

  lemma {:induction false} CountsSteps(actions: seq<Action>, log: seq<Event>)
    requires |log| == |actions|
    ensures Count(actions, log).steps == |actions|
    decreases |actions|
  {
    if actions != [] {
      CountsSteps(actions[..|actions| - 1], log[..|log| - 1]);
    }
  }

  lemma StepBound(n: nat, c: Tally)
    requires n > 0 && c.failures <= c.successes * (n - 1) && c.successes <= c.begins
    requires c.steps <= 5 * c.begins + 2 * c.failures
    ensures c.steps <= (2 * n + 3) * c.begins
  {
    MulMonotone(c.successes, c.begins, n - 1);
    assert c.begins * (n - 1) == c.begins * n - c.begins;
    assert (2 * n + 3) * c.begins == 2 * (c.begins * n) + 3 * c.begins;
  }

  lemma MulMonotone(a: nat, b: nat, c: nat)
    requires a <= b
    ensures a * c <= b * c
  {
  }
}
