/**
  What the pops of the array stack return.  A pop takes the top of the stack when it wins
  its CAS and reads the cell later; in between, stores and reads that are still pending may
  land in any order.  Every pop is bound to return the value it took exactly in the runs
  whose CASes are won on cells where all that is pending agrees in value.
 */
module ArrayStackReturns {
  import opened ArrayStack
  import opened Sequences

  // ---------- What a run takes and returns ----------

  /** The bounded stack, bottom first, after an event: it changes where a CAS is won. */
  function StackAfter(stack: seq<Value>, e: Event): seq<Value>
  {
    match e
    case PushWon(v) => stack + [v]
    case PopWon => if stack == [] then stack else stack[..|stack| - 1]
    case _ => stack
  }

  function StackOf(log: seq<Event>): seq<Value>
  {
    if log == [] then [] else StackAfter(StackOf(log[..|log| - 1]), log[|log| - 1])
  }

  function Top(stack: seq<Value>): Value
  {
    if stack == [] then 0 else stack[|stack| - 1]
  }

  /** The value thread `t` takes in this step, if it wins a pop. */
  function Takes(stack: seq<Value>, a: Action, e: Event, t: nat): seq<Value>
  {
    if e.PopWon? && a.t == t then [Top(stack)] else []
  }

  /** The value thread `t` returns in this step, if a pop of it ends with one. */
  function Returns(a: Action, e: Event, t: nat): seq<Value>
  {
    if e.PopDone? && a.t == t then [e.value] else []
  }

  function AllTaken(actions: seq<Action>, log: seq<Event>, t: nat): seq<Value>
    requires |log| == |actions|
  {
    if actions == [] then []
    else
      var last := |actions| - 1;
      AllTaken(actions[..last], log[..last], t) + Takes(StackOf(log[..last]), actions[last], log[last], t)
  }

  function AllReturned(actions: seq<Action>, log: seq<Event>, t: nat): seq<Value>
    requires |log| == |actions|
  {
    if actions == [] then []
    else
      var last := |actions| - 1;
      AllReturned(actions[..last], log[..last], t) + Returns(actions[last], log[last], t)
  }

  lemma StepHeight(s: State, stack: seq<Value>, a: Action, s': State, e: Event)
    requires |stack| == s.head && Steps(s, a, s', e)
    ensures |StackAfter(stack, e)| == s'.head
  {
  }

  /** The head counts the stack that the won CASes make. */
  lemma {:induction false} HeadIsHeight(capacity: nat, threads: nat, actions: seq<Action>, s: State, log: seq<Event>)
    requires Run(Init(capacity, threads), actions, s, log)
    ensures |StackOf(log)| == s.head
    decreases |actions|
  {
    if actions != [] {
      var last := |actions| - 1;
      var s0 :| Run(Init(capacity, threads), actions[..last], s0, log[..last])
        && Steps(s0, actions[last], s, log[last]);
      HeadIsHeight(capacity, threads, actions[..last], s0, log[..last]);
      StepHeight(s0, StackOf(log[..last]), actions[last], s, log[last]);
    }
  }

  /** What each thread owes: the value its last pop took. */
  function OwedAfter(owed: seq<Value>, stack: seq<Value>, a: Action, e: Event): (owed': seq<Value>)
    ensures |owed'| == |owed|
  {
    if e.PopWon? && a.t < |owed| then owed[a.t := Top(stack)] else owed
  }

  function OwedOf(threads: nat, actions: seq<Action>, log: seq<Event>): (owed: seq<Value>)
    requires |log| == |actions|
    ensures |owed| == threads
    decreases |actions|
  {
    if actions == [] then seq(threads, _ => 0)
    else
      var last := |actions| - 1;
      OwedAfter(OwedOf(threads, actions[..last], log[..last]), StackOf(log[..last]), actions[last], log[last])
  }

  // ---------- However the pending operations land ----------

  predicate InRange(s: State)
  {
    forall t :: 0 <= t < |s.threads| && s.threads[t].Pending() ==> s.threads[t].cell < |s.buffer|
  }

  /** A pending store or read takes place. */
  predicate Landing(s: State, a: Action, s': State)
  {
    a.Advance? && a.t < |s.threads| && s.threads[a.t].Pending() && Apply(s, a).Next? && Apply(s, a).s == s'
  }

  ghost predicate Lands(s0: State, actions: seq<Action>, s1: State)
    decreases |actions|
  {
    if actions == [] then
      s1 == s0
    else
      var last := |actions| - 1;
      exists s :: Lands(s0, actions[..last], s) && Landing(s, actions[last], s1)
  }

  /** If thread `t` is about to read, it returns `v` when it does. */
  predicate ReadsNow(s: State, t: nat, v: Value)
  {
    t < |s.threads| && s.threads[t].Reading? ==> Apply(s, Advance(t, false)) == Next(s.Set(t, Idle), PopDone(v))
  }

  /** Whichever pending operations land before it, and in whatever order, thread `t` returns `v`. */
  ghost predicate BoundToReturn(s: State, t: nat, v: Value)
  {
    forall actions, s' :: Lands(s, actions, s') ==> ReadsNow(s', t, v)
  }

  /** The cell thread `t` is about to read holds `v`, and whatever is still to be stored there is `v`. */
  predicate Settled(s: State, t: nat, v: Value)
    requires t < |s.threads| && s.threads[t].Reading?
  {
    var cell := s.threads[t].cell;
    && cell < |s.buffer| && s.buffer[cell] == v
    && forall u :: 0 <= u < |s.threads| && s.threads[u].Storing? && s.threads[u].cell == cell ==>
         s.threads[u].value == v
  }

  lemma LandingKeepsSettled(s: State, a: Action, s': State, t: nat, v: Value)
    requires InRange(s) && Landing(s, a, s') && t < |s.threads| && a.t != t && s.threads[t].Reading? && Settled(s, t, v)
    ensures |s'.threads| == |s.threads| && s'.threads[t] == s.threads[t] && Settled(s', t, v)
  {
  }

  lemma LandingShape(s: State, a: Action, s': State)
    requires InRange(s) && Landing(s, a, s')
    ensures |s'.threads| == |s.threads| && s'.threads == s.threads[a.t := Idle] && InRange(s')
  {
  }

  lemma {:induction false} LandsKeepsSettled(s: State, actions: seq<Action>, s': State, t: nat, v: Value)
    requires InRange(s) && Lands(s, actions, s') && t < |s.threads| && s.threads[t].Reading? && Settled(s, t, v)
    ensures |s'.threads| == |s.threads| && InRange(s')
    ensures s'.threads[t].Reading? ==> Settled(s', t, v)
    decreases |actions|
  {
    if actions != [] {
      var last := |actions| - 1;
      var s1 :| Lands(s, actions[..last], s1) && Landing(s1, actions[last], s');
      LandsKeepsSettled(s, actions[..last], s1, t, v);
      LandingShape(s1, actions[last], s');
      if s'.threads[t].Reading? {
        LandingKeepsSettled(s1, actions[last], s', t, v);
      }
    }
  }

  lemma LandsOne(s: State, a: Action, s': State)
    requires Landing(s, a, s')
    ensures Lands(s, [a], s')
  {
    assert Lands(s, [a][..0], s);
  }

  lemma BoundIsSettled(s: State, t: nat, v: Value)
    requires InRange(s) && t < |s.threads| && s.threads[t].Reading? && BoundToReturn(s, t, v)
    ensures Settled(s, t, v)
  {
    var cell := s.threads[t].cell;
    assert Lands(s, [], s) && ReadsNow(s, t, v);
    forall u | 0 <= u < |s.threads| && s.threads[u].Storing? && s.threads[u].cell == cell
      ensures s.threads[u].value == v
    {
      var s' := Apply(s, Advance(u, false)).s;
      LandsOne(s, Advance(u, false), s');
      assert ReadsNow(s', t, v) && s'.buffer[cell] == s.threads[u].value;
    }
  }

  /** A pop is bound to return `v` exactly when its cell holds `v` and no store of another value is pending there. */
  lemma BoundIffSettled(s: State, t: nat, v: Value)
    requires InRange(s) && t < |s.threads| && s.threads[t].Reading?
    ensures BoundToReturn(s, t, v) <==> Settled(s, t, v)
  {
    if Settled(s, t, v) {
      forall actions, s' | Lands(s, actions, s') ensures ReadsNow(s', t, v) {
        LandsKeepsSettled(s, actions, s', t, v);
      }
    } else if BoundToReturn(s, t, v) {
      BoundIsSettled(s, t, v);
    }
  }

  // ---------- Which CASes may be won ----------

  /** Every pop that has won is bound to return the value it took. */
  ghost predicate AllBound(s: State, owed: seq<Value>)
    requires |owed| == |s.threads|
  {
    forall t :: 0 <= t < |s.threads| && s.threads[t].Reading? ==> BoundToReturn(s, t, owed[t])
  }

  predicate AllSettled(s: State, owed: seq<Value>)
    requires |owed| == |s.threads|
  {
    forall t :: 0 <= t < |s.threads| && s.threads[t].Reading? ==> Settled(s, t, owed[t])
  }

  lemma AllBoundIffSettled(s: State, owed: seq<Value>)
    requires |owed| == |s.threads| && InRange(s)
    ensures AllBound(s, owed) <==> AllSettled(s, owed)
  {
    forall t | 0 <= t < |s.threads| && s.threads[t].Reading?
      ensures BoundToReturn(s, t, owed[t]) <==> Settled(s, t, owed[t])
    {
      BoundIffSettled(s, t, owed[t]);
    }
  }

  /** Whoever has yet to read this cell took `v` from it. */
  predicate ReadersTook(s: State, owed: seq<Value>, cell: nat, v: Value)
    requires |owed| == |s.threads|
  {
    forall t :: 0 <= t < |s.threads| && s.threads[t].Reading? && s.threads[t].cell == cell ==> owed[t] == v
  }

  /** The cell holds `v`, and whoever has yet to store it stores `v`. */
  predicate HoldsFirmly(s: State, cell: nat, v: Value)
  {
    && cell < |s.buffer| && s.buffer[cell] == v
    && forall u :: 0 <= u < |s.threads| && s.threads[u].Storing? && s.threads[u].cell == cell ==>
         s.threads[u].value == v
  }

  /** A CAS is won only on a cell where all that is pending agrees with the value pushed or taken. */
  predicate Agreeing(s: State, stack: seq<Value>, owed: seq<Value>, e: Event)
    requires |owed| == |s.threads|
  {
    match e
    case PushWon(v) => ReadersTook(s, owed, s.head, v)
    case PopWon => s.head > 0 && HoldsFirmly(s, s.head - 1, Top(stack))
    case _ => true
  }

  lemma PushWonOutcome(s: State, a: Action, s': State, v: Value)
    requires Steps(s, a, s', PushWon(v))
    ensures s'.buffer == s.buffer && s'.threads == s.threads[a.t := Storing(v, s.head)] && s.threads[a.t].PushSwapping?
  {
  }

  lemma PopWonOutcome(s: State, a: Action, s': State)
    requires Steps(s, a, s', PopWon)
    ensures s.head > 0 && s.threads[a.t].PopSwapping?
    ensures s'.buffer == s.buffer && s'.threads == s.threads[a.t := Reading(s.head - 1)]
  {
  }

  /** A step that wins no CAS stores what was pending or leaves the cells alone, and starts no read or store. */
  lemma QuietOutcome(s: State, a: Action, s': State, e: Event)
    requires Steps(s, a, s', e) && !e.PushWon? && !e.PopWon?
    ensures s'.threads == s.threads[a.t := s'.threads[a.t]] && !s'.threads[a.t].Pending()
    ensures s'.buffer == s.buffer || (s.threads[a.t].Pending() && Landing(s, a, s'))
  {
  }

  lemma PushWonSettled(s: State, owed: seq<Value>, a: Action, s': State, v: Value)
    requires |owed| == |s.threads| && AllSettled(s, owed) && Steps(s, a, s', PushWon(v))
    ensures |s'.threads| == |s.threads|
    ensures AllSettled(s', owed) <==> ReadersTook(s, owed, s.head, v)
  {
    PushWonOutcome(s, a, s', v);
    forall t | 0 <= t < |s.threads| && s.threads[t].Reading?
      ensures s'.threads[t] == s.threads[t]
      ensures Settled(s', t, owed[t]) <==> (s.threads[t].cell == s.head ==> owed[t] == v)
    {
      assert Settled(s, t, owed[t]);
      assert s'.threads[a.t].Storing? && s'.threads[a.t].cell == s.head;
    }
  }

  lemma PopWonSettled(s: State, stack: seq<Value>, owed: seq<Value>, a: Action, s': State)
    requires |owed| == |s.threads| && AllSettled(s, owed) && Steps(s, a, s', PopWon)
    ensures s.head > 0 && |s'.threads| == |s.threads|
    ensures AllSettled(s', OwedAfter(owed, stack, a, PopWon)) <==> HoldsFirmly(s, s.head - 1, Top(stack))
  {
    PopWonOutcome(s, a, s');
    var owed' := OwedAfter(owed, stack, a, PopWon);
    forall t | 0 <= t < |s.threads| && t != a.t && s.threads[t].Reading? ensures Settled(s', t, owed'[t]) {
      assert Settled(s, t, owed[t]);
    }
    assert Settled(s', a.t, Top(stack)) <==> HoldsFirmly(s, s.head - 1, Top(stack)) by {
      forall u | 0 <= u < |s.threads| ensures s'.threads[u].Storing? <==> s.threads[u].Storing? {
      }
    }
  }

  lemma QuietSettled(s: State, owed: seq<Value>, a: Action, s': State, e: Event)
    requires |owed| == |s.threads| && InRange(s) && AllSettled(s, owed)
    requires Steps(s, a, s', e) && !e.PushWon? && !e.PopWon?
    ensures |s'.threads| == |s.threads| && AllSettled(s', owed)
  {
    QuietOutcome(s, a, s', e);
    forall t | 0 <= t < |s'.threads| && s'.threads[t].Reading? ensures Settled(s', t, owed[t]) {
      assert t != a.t && Settled(s, t, owed[t]);
      if s'.buffer != s.buffer {
        LandingKeepsSettled(s, a, s', t, owed[t]);
      }
    }
  }

  lemma StepSettledIffAgreeing(s: State, stack: seq<Value>, owed: seq<Value>, a: Action, s': State, e: Event)
    requires |owed| == |s.threads| && InRange(s) && AllSettled(s, owed) && Steps(s, a, s', e)
    ensures |s'.threads| == |s.threads|
    ensures AllSettled(s', OwedAfter(owed, stack, a, e)) <==> Agreeing(s, stack, owed, e)
  {
    match e
    case PushWon(v) => PushWonSettled(s, owed, a, s', v);
    case PopWon => PopWonSettled(s, stack, owed, a, s');
    case _ => QuietSettled(s, owed, a, s', e);
  }

  lemma BoundedInRange(s: State)
    requires Bounded(s)
    ensures InRange(s)
  {
    forall t | 0 <= t < |s.threads| && s.threads[t].Pending() ensures s.threads[t].cell < |s.buffer| {
      assert PcOk(s.threads[t], |s.buffer|, s.offered);
    }
  }

  /**
    If every pop that has won is bound to return the value it took, a step leaves it so if
    and only if it agrees with what is pending on the cell it wins.
   */
  lemma StepBoundIffAgreeing(s: State, stack: seq<Value>, owed: seq<Value>, a: Action, s': State, e: Event)
    requires Bounded(s) && |owed| == |s.threads| && AllBound(s, owed) && Steps(s, a, s', e)
    ensures |s'.threads| == |s.threads|
    ensures AllBound(s', OwedAfter(owed, stack, a, e)) <==> Agreeing(s, stack, owed, e)
  {
    BoundedInRange(s);
    StepKeepsBounded(s, a);
    BoundedInRange(s');
    AllBoundIffSettled(s, owed);
    StepSettledIffAgreeing(s, stack, owed, a, s', e);
    AllBoundIffSettled(s', OwedAfter(owed, stack, a, e));
  }

  // ---------- Whole runs ----------

  /** A run in which every CAS won agrees with what is pending on its cell. */
  ghost predicate AgreeingRun(capacity: nat, threads: nat, actions: seq<Action>, s: State, log: seq<Event>)
    decreases |actions|
  {
    if actions == [] then
      s == Init(capacity, threads) && log == []
    else
      var last := |actions| - 1;
      && |log| == |actions|
      && exists s0 ::
           && AgreeingRun(capacity, threads, actions[..last], s0, log[..last])
           && Steps(s0, actions[last], s, log[last])
           && |s0.threads| == threads
           && Agreeing(s0, StackOf(log[..last]), OwedOf(threads, actions[..last], log[..last]), log[last])
  }

  /** A run in which, at every point, every pop that has won is bound to return the value it took. */
  ghost predicate BoundRun(capacity: nat, threads: nat, actions: seq<Action>, s: State, log: seq<Event>)
    decreases |actions|
  {
    && |log| == |actions| && |s.threads| == threads && AllBound(s, OwedOf(threads, actions, log))
    && if actions == [] then
         s == Init(capacity, threads)
       else
         var last := |actions| - 1;
         exists s0 ::
           BoundRun(capacity, threads, actions[..last], s0, log[..last]) && Steps(s0, actions[last], s, log[last])
  }

  lemma {:induction false} AgreeingRunIsBound(capacity: nat, threads: nat, actions: seq<Action>, s: State,
                                              log: seq<Event>)
    requires AgreeingRun(capacity, threads, actions, s, log)
    ensures BoundRun(capacity, threads, actions, s, log) && Bounded(s)
    decreases |actions|
  {
    if actions != [] {
      var last := |actions| - 1;
      var before, log0 := actions[..last], log[..last];
      var s0 :| AgreeingRun(capacity, threads, before, s0, log0) && Steps(s0, actions[last], s, log[last])
        && |s0.threads| == threads
        && Agreeing(s0, StackOf(log0), OwedOf(threads, before, log0), log[last]);
      AgreeingRunIsBound(capacity, threads, before, s0, log0);
      StepKeepsBounded(s0, actions[last]);
      StepBoundIffAgreeing(s0, StackOf(log0), OwedOf(threads, before, log0), actions[last], s, log[last]);
    }
  }

  lemma {:induction false} BoundRunAgrees(capacity: nat, threads: nat, actions: seq<Action>, s: State,
                                          log: seq<Event>)
    requires BoundRun(capacity, threads, actions, s, log)
    ensures AgreeingRun(capacity, threads, actions, s, log) && Bounded(s)
    decreases |actions|
  {
    if actions != [] {
      var last := |actions| - 1;
      var before, log0 := actions[..last], log[..last];
      var s0 :| BoundRun(capacity, threads, before, s0, log0) && Steps(s0, actions[last], s, log[last]);
      BoundRunAgrees(capacity, threads, before, s0, log0);
      StepKeepsBounded(s0, actions[last]);
      StepBoundIffAgreeing(s0, StackOf(log0), OwedOf(threads, before, log0), actions[last], s, log[last]);
    }
  }

  /**
    At every point of a run every pop that has won its CAS is bound to return the value it
    took, however the pending stores and reads land, if and only if every CAS of the run was
    won on a cell where all that was pending agreed in value.
   */
  lemma BoundIffAgreeing(capacity: nat, threads: nat, actions: seq<Action>, s: State, log: seq<Event>)
    ensures BoundRun(capacity, threads, actions, s, log) <==> AgreeingRun(capacity, threads, actions, s, log)
  {
    if AgreeingRun(capacity, threads, actions, s, log) {
      AgreeingRunIsBound(capacity, threads, actions, s, log);
    } else if BoundRun(capacity, threads, actions, s, log) {
      BoundRunAgrees(capacity, threads, actions, s, log);
    }
  }

  /** The value thread `t` has taken and not returned yet. */
  function Outstanding(s: State, owed: seq<Value>, t: nat): seq<Value>
  {
    if t < |s.threads| && t < |owed| && s.threads[t].Reading? then [owed[t]] else []
  }

  lemma StepReturns(s: State, stack: seq<Value>, owed: seq<Value>, a: Action, s': State, e: Event, t: nat)
    requires |owed| == |s.threads| && AllSettled(s, owed) && Steps(s, a, s', e)
    ensures Outstanding(s, owed, t) + Takes(stack, a, e, t)
         == Returns(a, e, t) + Outstanding(s', OwedAfter(owed, stack, a, e), t)
  {
    if s.threads[a.t].Reading? {
      assert Settled(s, a.t, owed[a.t]);
    }
  }

  /** Thread by thread, the values pops have returned are the values they took, in order. */
  ghost predicate ReturnsWhatItTook(threads: nat, actions: seq<Action>, s: State, log: seq<Event>)
    requires |log| == |actions|
  {
    forall t: nat ::
      AllTaken(actions, log, t) == AllReturned(actions, log, t) + Outstanding(s, OwedOf(threads, actions, log), t)
  }

  lemma ReturnsSnoc(threads: nat, actions: seq<Action>, s0: State, s: State, log: seq<Event>)
    requires actions != [] && |log| == |actions| && |s0.threads| == threads
    requires Steps(s0, actions[|actions| - 1], s, log[|log| - 1])
    requires AllSettled(s0, OwedOf(threads, actions[..|actions| - 1], log[..|log| - 1]))
    requires ReturnsWhatItTook(threads, actions[..|actions| - 1], s0, log[..|log| - 1])
    ensures ReturnsWhatItTook(threads, actions, s, log)
  {
    var last := |actions| - 1;
    var before, log0, a, e := actions[..last], log[..last], actions[last], log[last];
    var stack, owed := StackOf(log0), OwedOf(threads, before, log0);
    forall t: nat
      ensures AllTaken(actions, log, t)
           == AllReturned(actions, log, t) + Outstanding(s, OwedOf(threads, actions, log), t)
    {
      StepReturns(s0, stack, owed, a, s, e, t);
      Regroup(AllReturned(before, log0, t), Outstanding(s0, owed, t), Takes(stack, a, e, t),
              Returns(a, e, t), Outstanding(s, OwedAfter(owed, stack, a, e), t));
    }
  }

  /** In a run whose CASes all agree, the k-th value a thread's pops return is the k-th value they took. */
  lemma {:induction false} AgreeingRunReturns(capacity: nat, threads: nat, actions: seq<Action>, s: State,
                                              log: seq<Event>)
    requires AgreeingRun(capacity, threads, actions, s, log)
    ensures |log| == |actions| && ReturnsWhatItTook(threads, actions, s, log)
    decreases |actions|
  {
    if actions != [] {
      var last := |actions| - 1;
      var s0 :| AgreeingRun(capacity, threads, actions[..last], s0, log[..last])
        && Steps(s0, actions[last], s, log[last])
        && |s0.threads| == threads
        && Agreeing(s0, StackOf(log[..last]), OwedOf(threads, actions[..last], log[..last]), log[last]);
      AgreeingRunReturns(capacity, threads, actions[..last], s0, log[..last]);
      AgreeingRunIsBound(capacity, threads, actions[..last], s0, log[..last]);
      BoundedInRange(s0);
      AllBoundIffSettled(s0, OwedOf(threads, actions[..last], log[..last]));
      ReturnsSnoc(threads, actions, s0, s, log);
    }
  }
}
