/**
  Every call of the array stack gets its answer, however operations overlap: a push ends by
  storing the value it has won a cell for or by reporting full, a pop by returning a value or
  by reporting empty, and no other way.
 */
module ArrayStackCalls {
  import opened ArrayStack
  import opened ArrayStackReturns
  import opened Sequences

  // ---------- One step ----------

  /** The argument, if thread `t` calls Push in this step. */
  function Called(a: Action, t: nat): seq<Value>
  {
    if a.BeginPush? && a.t == t then [a.value] else []
  }

  /** The value, if a push of thread `t` wins a cell or is refused in this step. */
  function Decided(a: Action, e: Event, t: nat): seq<Value>
  {
    if (e.PushWon? || e.PushFull?) && a.t == t then [e.value] else []
  }

  function Won(a: Action, e: Event, t: nat): seq<Value>
  {
    if e.PushWon? && a.t == t then [e.value] else []
  }

  /** The value, if a push of thread `t` returns true in this step. */
  function Pushed(a: Action, e: Event, t: nat): seq<Value>
  {
    if e.PushDone? && a.t == t then [e.value] else []
  }

  function PopCalled(a: Action, t: nat): nat
  {
    if a == BeginPop(t) then 1 else 0
  }

  function PopAnswered(a: Action, e: Event, t: nat): nat
  {
    if (e.PopEmpty? || e.PopDone?) && a.t == t then 1 else 0
  }

  // ---------- Where a thread stands ----------

  /** The argument of a push that has neither won a cell nor been refused. */
  function Undecided(s: State, t: nat): seq<Value>
  {
    if t < |s.threads| && (s.threads[t].PushLoading? || s.threads[t].PushSwapping?) then [s.threads[t].value] else []
  }

  /** The value of a push that has won a cell and not stored it. */
  function ToStore(s: State, t: nat): seq<Value>
  {
    if t < |s.threads| && s.threads[t].Storing? then [s.threads[t].value] else []
  }

  function InPop(s: State, t: nat): nat
  {
    if t < |s.threads| && (s.threads[t].PopLoading? || s.threads[t].PopSwapping? || s.threads[t].Reading?) then 1 else 0
  }

  lemma StepDecides(s: State, a: Action, s': State, e: Event, t: nat)
    requires Steps(s, a, s', e)
    ensures Undecided(s, t) + Called(a, t) == Decided(a, e, t) + Undecided(s', t)
  {
  }

  lemma StepStores(s: State, a: Action, s': State, e: Event, t: nat)
    requires Steps(s, a, s', e)
    ensures ToStore(s, t) + Won(a, e, t) == Pushed(a, e, t) + ToStore(s', t)
  {
  }

  lemma StepAnswersPop(s: State, a: Action, s': State, e: Event, t: nat)
    requires Steps(s, a, s', e)
    ensures InPop(s, t) + PopCalled(a, t) == PopAnswered(a, e, t) + InPop(s', t)
  {
  }

  /** In every state every thread can take a step: start any push or a pop, or go on with its operation. */
  lemma NonBlocking(s: State, t: nat, value: Value, spurious: bool)
    requires t < |s.threads|
    ensures s.threads[t].Idle? ==> Enabled(s, BeginPush(t, value)) && Enabled(s, BeginPop(t))
    ensures !s.threads[t].Idle? ==> Enabled(s, Advance(t, spurious))
  {
  }

  /** An exchange is won exactly when it does not fail for no reason and the head is the one loaded. */
  lemma ExchangeWonIff(s: State, t: nat, spurious: bool, s': State, e: Event)
    requires Bounded(s) && Steps(s, Advance(t, spurious), s', e)
    requires s.threads[t].PushSwapping? || s.threads[t].PopSwapping?
    ensures e.PushWon? || e.PopWon? <==> !spurious && s.head == s.threads[t].top
  {
    assert PcOk(s.threads[t], |s.buffer|, s.offered);
  }

  // ---------- Whole runs ----------

  /** What a run has done on behalf of one thread. */
  datatype Account = Account(
    called: seq<Value>,      // arguments of Push
    decided: seq<Value>,     // values that won a cell or were refused
    won: seq<Value>,         // values that won a cell
    pushed: seq<Value>,      // values for which Push has returned true
    popsCalled: nat,
    popsAnswered: nat)

  function AccountOf(actions: seq<Action>, log: seq<Event>, t: nat): Account
    requires |log| == |actions|
    decreases |actions|
  {
    if actions == [] then Account([], [], [], [], 0, 0)
    else
      var last := |actions| - 1;
      var c, a, e := AccountOf(actions[..last], log[..last], t), actions[last], log[last];
      Account(c.called + Called(a, t), c.decided + Decided(a, e, t), c.won + Won(a, e, t), c.pushed + Pushed(a, e, t),
              c.popsCalled + PopCalled(a, t), c.popsAnswered + PopAnswered(a, e, t))
  }

  /** Nothing of what the thread has called is lost, save what is still under way. */
  predicate Settles(c: Account, s: State, t: nat)
  {
    && c.called == c.decided + Undecided(s, t)
    && c.won == c.pushed + ToStore(s, t)
    && c.popsCalled == c.popsAnswered + InPop(s, t)
  }

  /**
    In every run, thread by thread: the arguments of Push are, in order and each once, the
    values that won a cell or were refused as full, and the one not decided yet; the values
    that won a cell are those Push has returned true for, and the one still to be stored; and
    every pop has returned a value or reported empty, save the one under way.
   */
  lemma {:induction false} EveryCallIsAnswered(capacity: nat, threads: nat, actions: seq<Action>, s: State,
                                               log: seq<Event>, t: nat)
    requires Run(Init(capacity, threads), actions, s, log)
    ensures |log| == |actions| && Settles(AccountOf(actions, log, t), s, t)
    decreases |actions|
  {
    if actions != [] {
      var last := |actions| - 1;
      var a, e := actions[last], log[last];
      var s0 :| Run(Init(capacity, threads), actions[..last], s0, log[..last]) && Steps(s0, a, s, e);
      EveryCallIsAnswered(capacity, threads, actions[..last], s0, log[..last], t);
      StepSettles(s0, a, s, e, t, AccountOf(actions[..last], log[..last], t), AccountOf(actions, log, t));
    }
  }

  lemma StepSettles(s: State, a: Action, s': State, e: Event, t: nat, c: Account, c': Account)
    requires Steps(s, a, s', e) && Settles(c, s, t)
    requires c' == Account(c.called + Called(a, t), c.decided + Decided(a, e, t), c.won + Won(a, e, t),
                           c.pushed + Pushed(a, e, t),
                           c.popsCalled + PopCalled(a, t), c.popsAnswered + PopAnswered(a, e, t))
    ensures Settles(c', s', t)
  {
    StepDecides(s, a, s', e, t);
    Regroup(c.decided, Undecided(s, t), Called(a, t), Decided(a, e, t), Undecided(s', t));
    StepStores(s, a, s', e, t);
    Regroup(c.pushed, ToStore(s, t), Won(a, e, t), Pushed(a, e, t), ToStore(s', t));
    StepAnswersPop(s, a, s', e, t);
  }

  /**
    In every run a load finds full exactly at the capacity, and empty exactly with nothing on
    the stack that the won CASes make, and no CAS is won beyond either end.
   */
  lemma RefusalsAreRight(capacity: nat, threads: nat, actions: seq<Action>, s: State, log: seq<Event>,
                         a: Action, s': State, e: Event)
    requires Run(Init(capacity, threads), actions, s, log) && Steps(s, a, s', e)
    ensures e.PushFull? <==> a.Advance? && s.threads[a.t].PushLoading? && |StackOf(log)| == capacity
    ensures e.PushWon? ==> |StackOf(log)| < capacity
    ensures e.PopEmpty? <==> a.Advance? && s.threads[a.t].PopLoading? && StackOf(log) == []
    ensures e.PopWon? ==> StackOf(log) != []
  {
    HeadIsHeight(capacity, threads, actions, s, log);
    AlwaysBounded(capacity, threads, actions, s, log);
    assert PcOk(s.threads[a.t], |s.buffer|, s.offered);
  }
}
