/**
  The spinlock and the counter it protects: any number of threads, each incrementing the
  shared counter a given number of times, with the increment split into its read and its
  write.
 */
module Spinlock {
  import opened Sums

  /** `left` counts the iterations still to finish, the current one included. */
  datatype Pc =
    | Spinning(left: nat)                   // about to exchange the flag
    | Reading(left: nat)                    // holds the lock, about to read the counter
    | Writing(left: nat, seen: int)         // holds the lock, about to write seen + 1
    | Unlocking(left: nat)                  // holds the lock, about to clear the flag
    | Finished
  {
    predicate Holds() { Reading? || Writing? || Unlocking? }
  }

  datatype State = State(locked: bool, x: int, threads: seq<Pc>)

  predicate Enabled(s: State, t: nat)
  {
    t < |s.threads| && !s.threads[t].Finished?
  }

  function Iteration(left: nat): Pc
  {
    if left == 0 then Finished else Spinning(left)
  }

  function Next(s: State, t: nat): State
    requires Enabled(s, t)
  {
    match s.threads[t]
    case Spinning(left) => if s.locked then s else s.(locked := true, threads := s.threads[t := Reading(left)])
    case Reading(left) => s.(threads := s.threads[t := Writing(left, s.x)])
    case Writing(left, seen) => s.(x := seen + 1, threads := s.threads[t := Unlocking(left)])
    case Unlocking(left) =>
      s.(locked := false, threads := s.threads[t := Iteration(if left > 0 then left - 1 else 0)])
  }

  function Init(threads: nat, k: nat): State
  {
    State(false, 0, seq(threads, _ => Iteration(k)))
  }

  predicate Steps(s: State, t: nat, s': State)
  {
    Enabled(s, t) && s' == Next(s, t)
  }

  /** The step does something: it is not an exchange that finds the flag set. */
  predicate Progresses(s: State, t: nat)
    requires Enabled(s, t)
  {
    !(s.threads[t].Spinning? && s.locked)
  }

  function Gain(s: State, t: nat): nat
  {
    if Enabled(s, t) && Progresses(s, t) then 1 else 0
  }

  /** `schedule` leads from `s0` to `s1`, and `useful` of its steps are not failed exchanges. */
  ghost predicate Run(s0: State, schedule: seq<nat>, s1: State, useful: nat)
    decreases |schedule|
  {
    if schedule == [] then
      s1 == s0 && useful == 0
    else
      var last := |schedule| - 1;
      exists s ::
        && Steps(s, schedule[last], s1)
        && Gain(s, schedule[last]) <= useful
        && Run(s0, schedule[..last], s, useful - Gain(s, schedule[last]))
  }

  /** Increments a thread has still to write. */
  function Owed(pc: Pc): nat
  {
    match pc
    case Spinning(left) => left
    case Reading(left) => left
    case Writing(left, _) => left
    case Unlocking(left) => if left > 0 then left - 1 else 0
    case Finished => 0
  }

  function OwedWeight(): Pc -> nat
  {
    (pc: Pc) => Owed(pc)
  }

  predicate PcOk(s: State, pc: Pc)
  {
    && (pc.Holds() ==> s.locked && pc.left > 0)
    && (pc.Spinning? ==> pc.left > 0)
    && (pc.Writing? ==> pc.seen == s.x)
  }

  predicate Inv(s: State, total: nat)
  {
    && (forall t :: 0 <= t < |s.threads| ==> PcOk(s, s.threads[t]))
    && (forall t, u :: 0 <= t < u < |s.threads| ==> !(s.threads[t].Holds() && s.threads[u].Holds()))
    && (s.locked ==> exists t :: 0 <= t < |s.threads| && s.threads[t].Holds())
    && s.x + Total(OwedWeight(), s.threads) == total
  }

  lemma StepKeepsInv(s: State, t: nat, s': State, total: nat)
    requires Inv(s, total) && Steps(s, t, s')
    ensures Inv(s', total)
  {
    assert PcOk(s, s.threads[t]);
    TotalUpdate(OwedWeight(), s.threads, t, s'.threads[t]);
    assert s'.threads == s.threads[t := s'.threads[t]];
    forall u | 0 <= u < |s'.threads| ensures PcOk(s', s'.threads[u]) {
      assert PcOk(s, s.threads[u]);
      assert u != t && s.threads[u].Holds() ==> !s.threads[t].Holds();
    }
    assert s'.locked ==> s' == s || s'.threads[t].Holds();
  }

  lemma {:induction false} InitTotal(threads: nat, k: nat)
    ensures Total(OwedWeight(), Init(threads, k).threads) == threads * k
  {
    if threads > 0 {
      assert Init(threads, k).threads[1..] == Init(threads - 1, k).threads;
      InitTotal(threads - 1, k);
      assert threads * k == (threads - 1) * k + k;
    }
  }

  lemma InitInv(threads: nat, k: nat)
    ensures Inv(Init(threads, k), threads * k)
  {
    InitTotal(threads, k);
  }

  lemma {:induction false} RunKeepsInv(s0: State, schedule: seq<nat>, s1: State, useful: nat, total: nat)
    requires Inv(s0, total) && Run(s0, schedule, s1, useful)
    ensures Inv(s1, total)
    decreases |schedule|
  {
    if schedule != [] {
      var last := |schedule| - 1;
      var s :| Steps(s, schedule[last], s1) && Gain(s, schedule[last]) <= useful
        && Run(s0, schedule[..last], s, useful - Gain(s, schedule[last]));
      RunKeepsInv(s0, schedule[..last], s, useful - Gain(s, schedule[last]), total);
      StepKeepsInv(s, schedule[last], s1, total);
    }
  }

  /** At most one thread is in the critical section, and the flag is set exactly when one is. */
  lemma MutualExclusion(threads: nat, k: nat, schedule: seq<nat>, s: State, useful: nat, t: nat, u: nat)
    requires Run(Init(threads, k), schedule, s, useful) && t < |s.threads| && u < |s.threads|
    ensures s.threads[t].Holds() && s.threads[u].Holds() ==> t == u
    ensures s.locked <==> exists h :: 0 <= h < |s.threads| && s.threads[h].Holds()
  {
    InitInv(threads, k);
    RunKeepsInv(Init(threads, k), schedule, s, useful, threads * k);
    if h :| 0 <= h < |s.threads| && s.threads[h].Holds() {
      assert PcOk(s, s.threads[h]);
    }
  }

  /** No increment is lost: when all threads have finished the counter is their product. */
  lemma NoLostIncrement(threads: nat, k: nat, schedule: seq<nat>, s: State, useful: nat)
    requires Run(Init(threads, k), schedule, s, useful)
    requires forall t :: 0 <= t < |s.threads| ==> s.threads[t].Finished?
    ensures s.x == threads * k && !s.locked
  {
    InitInv(threads, k);
    RunKeepsInv(Init(threads, k), schedule, s, useful, threads * k);
    TotalZero(OwedWeight(), s.threads);
  }

  // ---------- Progress ----------

  /** Steps a thread has still to take, not counting failed exchanges. */
  function StepsLeft(pc: Pc): nat
  {
    match pc
    case Spinning(left) => 4 * left
    case Reading(left) => if left > 0 then 4 * left - 1 else 0
    case Writing(left, _) => if left > 0 then 4 * left - 2 else 0
    case Unlocking(left) => if left > 0 then 4 * left - 3 else 0
    case Finished => 0
  }

  function LeftWeight(): Pc -> nat
  {
    (pc: Pc) => StepsLeft(pc)
  }

  lemma {:induction false} InitLeft(threads: nat, k: nat)
    ensures Total(LeftWeight(), Init(threads, k).threads) == 4 * (threads * k)
  {
    if threads > 0 {
      assert Init(threads, k).threads[1..] == Init(threads - 1, k).threads;
      InitLeft(threads - 1, k);
      assert threads * k == (threads - 1) * k + k;
    }
  }

  lemma StepSpends(s: State, t: nat, s': State, total: nat)
    requires Inv(s, total) && Steps(s, t, s')
    ensures Total(LeftWeight(), s'.threads) + Gain(s, t) == Total(LeftWeight(), s.threads)
  {
    assert PcOk(s, s.threads[t]);
    TotalUpdate(LeftWeight(), s.threads, t, s'.threads[t]);
    assert s'.threads == s.threads[t := s'.threads[t]];
  }

  lemma {:induction false} RunSpends(s0: State, schedule: seq<nat>, s1: State, useful: nat, total: nat)
    requires Inv(s0, total) && Run(s0, schedule, s1, useful)
    ensures Inv(s1, total) && useful + Total(LeftWeight(), s1.threads) == Total(LeftWeight(), s0.threads)
    decreases |schedule|
  {
    if schedule != [] {
      var last := |schedule| - 1;
      var s :| Steps(s, schedule[last], s1) && Gain(s, schedule[last]) <= useful
        && Run(s0, schedule[..last], s, useful - Gain(s, schedule[last]));
      RunSpends(s0, schedule[..last], s, useful - Gain(s, schedule[last]), total);
      StepKeepsInv(s, schedule[last], s1, total);
      StepSpends(s, schedule[last], s1, total);
    }
  }

  /** In every run the useful steps and those still to come are four for each increment. */
  lemma UsefulStepsAreExact(threads: nat, k: nat, schedule: seq<nat>, s: State, useful: nat)
    requires Run(Init(threads, k), schedule, s, useful)
    ensures useful + Total(LeftWeight(), s.threads) == 4 * (threads * k)
  {
    InitInv(threads, k);
    InitLeft(threads, k);
    RunSpends(Init(threads, k), schedule, s, useful, threads * k);
  }

  /** A thread is never blocked: if the flag is set its exchange fails and changes nothing. */
  lemma FailedExchangeChangesNothing(s: State, t: nat)
    requires t < |s.threads| && !s.threads[t].Finished?
    ensures Enabled(s, t)
    ensures s.locked && s.threads[t].Spinning? ==> Next(s, t) == s && Gain(s, t) == 0
    ensures !s.locked && s.threads[t].Spinning? ==> Next(s, t).locked && Next(s, t).threads[t].Holds()
  {
  }

  /** Until all threads have finished, one of them can take a useful step: there is no deadlock. */
  lemma SomeoneCanProgress(threads: nat, k: nat, schedule: seq<nat>, s: State, useful: nat) returns (t: nat)
    requires Run(Init(threads, k), schedule, s, useful)
    requires exists u :: 0 <= u < |s.threads| && !s.threads[u].Finished?
    ensures Enabled(s, t) && Progresses(s, t)
  {
    InitInv(threads, k);
    RunKeepsInv(Init(threads, k), schedule, s, useful, threads * k);
    if s.locked {
      t :| 0 <= t < |s.threads| && s.threads[t].Holds();
    } else {
      t :| 0 <= t < |s.threads| && !s.threads[t].Finished?;
    }
  }

  /** Everybody has finished exactly when four useful steps have been taken for each increment. */
  lemma FinishedIffAllSteps(threads: nat, k: nat, schedule: seq<nat>, s: State, useful: nat)
    requires Run(Init(threads, k), schedule, s, useful)
    ensures useful <= 4 * (threads * k)
    ensures (forall t :: 0 <= t < |s.threads| ==> s.threads[t].Finished?) <==> useful == 4 * (threads * k)
  {
    UsefulStepsAreExact(threads, k, schedule, s, useful);
    InitInv(threads, k);
    RunKeepsInv(Init(threads, k), schedule, s, useful, threads * k);
    if forall t :: 0 <= t < |s.threads| ==> s.threads[t].Finished? {
      TotalZero(LeftWeight(), s.threads);
    } else {
      var t :| 0 <= t < |s.threads| && !s.threads[t].Finished?;
      assert PcOk(s, s.threads[t]);
      TotalAtLeast(LeftWeight(), s.threads, t);
    }
  }
}
