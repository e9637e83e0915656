/**
  The condition-variable worker: any number of threads add tasks, one worker swaps the
  pending tasks out under the mutex and executes them in a batch.
 */
module WorkerQueue {
  import opened Sequences
  import opened Sums

  type Task = int

  datatype AdderPc =
    | Outside
    | Locking(task: Task)
    | Pushing(task: Task)      // holds the mutex
    | Unlocking                // holds the mutex
    | Notifying
  {
    predicate HasMutex() { Pushing? || Unlocking? }

    /** The task is in the queue and the notification is still to come. */
    predicate OwesNotify() { Unlocking? || Notifying? }
  }

  datatype WorkerPc =
    | CheckingStop
    | Acquiring                       // the lock at the top of an iteration
    | Testing                         // holds the mutex, about to test the wait condition
    | Sleeping                        // in the wait, mutex released
    | Reacquiring                     // woken, about to take the mutex again
    | Swapping                        // holds the mutex
    | Releasing(batch: seq<Task>)     // holds the mutex
    | Executing(batch: seq<Task>)
    | Stopped
  {
    predicate HasMutex() { Testing? || Swapping? || Releasing? }

    function Batch(): seq<Task>
    {
      if Releasing? || Executing? then batch else []
    }
  }

  datatype Holder = Nobody | Adder(j: nat) | Worker

  /** One locked `push_back`. */
  datatype Addition = Addition(adder: nat, task: Task)

  function Tasks(added: seq<Addition>): seq<Task>
  {
    seq(|added|, i requires 0 <= i < |added| => added[i].task)
  }

  datatype State = State(
    mutex: Holder,
    tasks: seq<Task>,
    stop: bool,
    adders: seq<AdderPc>,
    worker: WorkerPc,
    added: seq<Addition>,    // in the order of the locked push_backs
    executed: seq<Task>)

  datatype Action =
    | BeginAdd(j: nat, task: Task)
    | AdderStep(j: nat)
    | WorkerStep
    | SpuriousWake
    | RequestStop

  predicate Enabled(s: State, a: Action)
  {
    match a
    case BeginAdd(j, _) => j < |s.adders| && s.adders[j].Outside?
    case AdderStep(j) => j < |s.adders| && !s.adders[j].Outside? && (s.adders[j].Locking? ==> s.mutex.Nobody?)
    case WorkerStep =>
      && !s.worker.Stopped? && !s.worker.Sleeping?
      && (s.worker.Acquiring? || s.worker.Reacquiring? ==> s.mutex.Nobody?)
    case SpuriousWake => s.worker.Sleeping?
    case RequestStop => true
  }

  function AdderNext(s: State, j: nat): State
    requires Enabled(s, AdderStep(j))
  {
    match s.adders[j]
    case Locking(task) => s.(mutex := Adder(j), adders := s.adders[j := Pushing(task)])
    case Pushing(task) =>
      s.(tasks := s.tasks + [task], added := s.added + [Addition(j, task)], adders := s.adders[j := Unlocking])
    case Unlocking => s.(mutex := Nobody, adders := s.adders[j := Notifying])
    case Notifying =>
      s.(adders := s.adders[j := Outside], worker := if s.worker.Sleeping? then Reacquiring else s.worker)
  }

  function WorkerNext(s: State): State
    requires Enabled(s, WorkerStep)
  {
    match s.worker
    case CheckingStop => s.(worker := if s.stop then Stopped else Acquiring)
    case Acquiring => s.(mutex := Worker, worker := Testing)
    case Testing =>
      if s.tasks == [] then s.(mutex := Nobody, worker := Sleeping) else s.(worker := Swapping)
    case Reacquiring => s.(mutex := Worker, worker := Testing)
    case Swapping => s.(tasks := [], worker := Releasing(s.tasks))
    case Releasing(batch) => s.(mutex := Nobody, worker := Executing(batch))
    case Executing(batch) =>
      if batch == [] then s.(worker := CheckingStop)
      else s.(executed := s.executed + [batch[0]], worker := Executing(batch[1..]))
  }

  function Next(s: State, a: Action): State
    requires Enabled(s, a)
  {
    match a
    case BeginAdd(j, task) => s.(adders := s.adders[j := Locking(task)])
    case AdderStep(j) => AdderNext(s, j)
    case WorkerStep => WorkerNext(s)
    case SpuriousWake => s.(worker := Reacquiring)
    case RequestStop => s.(stop := true)
  }

  function Init(adders: nat): State
  {
    State(Nobody, [], false, seq(adders, _ => Outside), CheckingStop, [], [])
  }

  predicate Steps(s: State, a: Action, s': State)
  {
    Enabled(s, a) && s' == Next(s, a)
  }

  ghost predicate Run(s0: State, actions: seq<Action>, s1: State)
    decreases |actions|
  {
    if actions == [] then
      s1 == s0
    else
      var last := |actions| - 1;
      exists s :: Run(s0, actions[..last], s) && Steps(s, actions[last], s1)
  }

  // ---------- The invariant ----------

  predicate MutexOk(s: State)
  {
    && (s.mutex.Worker? <==> s.worker.HasMutex())
    && (s.mutex.Adder? ==> s.mutex.j < |s.adders|)
    && (forall j :: 0 <= j < |s.adders| ==> (s.mutex == Adder(j) <==> s.adders[j].HasMutex()))
  }

  /** Executed, then the rest of the batch, then what is pending: all that was added, in order. */
  predicate Conserved(s: State)
  {
    s.executed + s.worker.Batch() + s.tasks == Tasks(s.added)
  }

  predicate SomeoneWillNotify(s: State)
  {
    exists j :: 0 <= j < |s.adders| && s.adders[j].OwesNotify()
  }

  predicate WakeOk(s: State)
  {
    && (s.worker.Sleeping? && s.tasks != [] ==> SomeoneWillNotify(s))
    && (s.worker.Swapping? ==> s.tasks != [])
  }

  predicate Inv(s: State)
  {
    MutexOk(s) && Conserved(s) && WakeOk(s)
  }

  lemma AdderKeepsInv(s: State, j: nat)
    requires Inv(s) && Enabled(s, AdderStep(j))
    ensures Inv(AdderNext(s, j))
  {
    var s' := AdderNext(s, j);
    if s.adders[j].Pushing? {
      assert s.executed + s.worker.Batch() + (s.tasks + [s.adders[j].task])
          == s.executed + s.worker.Batch() + s.tasks + [s.adders[j].task];
      assert Tasks(s'.added) == Tasks(s.added) + [s.adders[j].task];
      assert s'.adders[j].OwesNotify();
    } else if s.worker.Sleeping? && s.tasks != [] {
      var i :| 0 <= i < |s.adders| && s.adders[i].OwesNotify();
      assert s.adders[j].Notifying? || s'.adders[i].OwesNotify();
    }
  }

  lemma WorkerKeepsInv(s: State)
    requires Inv(s) && Enabled(s, WorkerStep)
    ensures Inv(WorkerNext(s))
  {
    if s.worker.Executing? && s.worker.batch != [] {
      assert s.worker.batch == [s.worker.batch[0]] + s.worker.batch[1..];
      assert s.executed + s.worker.batch == s.executed + [s.worker.batch[0]] + s.worker.batch[1..];
    } else if s.worker.Swapping? {
      assert s.executed + [] + s.tasks == s.executed + s.tasks + [];
    }
  }

  lemma StepKeepsInv(s: State, a: Action)
    requires Inv(s) && Enabled(s, a)
    ensures Inv(Next(s, a))
  {
    match a
    case BeginAdd(j, task) =>
      if s.worker.Sleeping? && s.tasks != [] {
        var i :| 0 <= i < |s.adders| && s.adders[i].OwesNotify();
        assert Next(s, a).adders[i].OwesNotify();
      }
    case AdderStep(j) => AdderKeepsInv(s, j);
    case WorkerStep => WorkerKeepsInv(s);
    case SpuriousWake =>
    case RequestStop =>
  }

  lemma {:induction false} RunFromKeepsInv(s0: State, actions: seq<Action>, s: State)
    requires Inv(s0) && Run(s0, actions, s)
    ensures Inv(s)
    decreases |actions|
  {
    if actions != [] {
      var last := |actions| - 1;
      var s1 :| Run(s0, actions[..last], s1) && Steps(s1, actions[last], s);
      RunFromKeepsInv(s0, actions[..last], s1);
      StepKeepsInv(s1, actions[last]);
    }
  }

  lemma RunKeepsInv(adders: nat, actions: seq<Action>, s: State)
    requires Run(Init(adders), actions, s)
    ensures Inv(s)
  {
    assert Inv(Init(adders));
    RunFromKeepsInv(Init(adders), actions, s);
  }

  lemma RunSnoc(s0: State, actions: seq<Action>, s: State, a: Action)
    requires Run(s0, actions, s) && Enabled(s, a)
    ensures Run(s0, actions + [a], Next(s, a))
  {
    assert (actions + [a])[..|actions|] == actions;
    assert Steps(s, a, Next(s, a));
  }

  lemma PrefixOfSum(a: seq<Task>, b: seq<Task>, c: seq<Task>)
    ensures a <= a + b + c
  {
    assert (a + b + c)[..|a|] == a;
  }

  // ---------- Who added what ----------

  /** The task that adder `j` is called with in this step, if it is. */
  function CalledWith(a: Action, j: nat): seq<Task>
  {
    if a.BeginAdd? && a.j == j then [a.task] else []
  }

  /** The tasks that adder `j` was called with, in order. */
  function GivenTo(actions: seq<Action>, j: nat): seq<Task>
  {
    if actions == [] then []
    else GivenTo(actions[..|actions| - 1], j) + CalledWith(actions[|actions| - 1], j)
  }

  /** The tasks that adder `j` has put into the queue, in order. */
  function AddedBy(added: seq<Addition>, j: nat): seq<Task>
  {
    if added == [] then []
    else
      var last := added[|added| - 1];
      AddedBy(added[..|added| - 1], j) + if last.adder == j then [last.task] else []
  }

  /** The task adder `j` was called with and has not put into the queue yet. */
  function InHand(s: State, j: nat): seq<Task>
  {
    if j < |s.adders| && (s.adders[j].Locking? || s.adders[j].Pushing?) then [s.adders[j].task] else []
  }

  /** The task that adder `j` puts into the queue in this step, if it does. */
  function PutIn(s: State, a: Action, j: nat): seq<Task>
  {
    if a == AdderStep(j) && j < |s.adders| && s.adders[j].Pushing? then [s.adders[j].task] else []
  }

  lemma StepHands(s: State, a: Action, j: nat)
    requires Enabled(s, a)
    ensures InHand(s, j) + CalledWith(a, j) == PutIn(s, a, j) + InHand(Next(s, a), j)
  {
  }

  lemma AddedBySnoc(added: seq<Addition>, x: Addition, j: nat)
    ensures AddedBy(added + [x], j) == AddedBy(added, j) + if x.adder == j then [x.task] else []
  {
    assert (added + [x])[..|added|] == added;
  }

  /** Only a locked `push_back` adds. */
  lemma AddedOutcome(s: State, a: Action)
    requires Enabled(s, a)
    ensures Next(s, a).added ==
            if a.AdderStep? && s.adders[a.j].Pushing? then s.added + [Addition(a.j, s.adders[a.j].task)] else s.added
  {
  }

  lemma StepAdds(s: State, a: Action, j: nat)
    requires Enabled(s, a)
    ensures AddedBy(Next(s, a).added, j) == AddedBy(s.added, j) + PutIn(s, a, j)
  {
    AddedOutcome(s, a);
    if a.AdderStep? && s.adders[a.j].Pushing? {
      AddedBySnoc(s.added, Addition(a.j, s.adders[a.j].task), j);
    }
  }

  lemma {:induction false} RunAdds(adders: nat, actions: seq<Action>, s: State, j: nat)
    requires Run(Init(adders), actions, s)
    ensures GivenTo(actions, j) == AddedBy(s.added, j) + InHand(s, j)
    decreases |actions|
  {
    if actions != [] {
      var last := |actions| - 1;
      var s0 :| Run(Init(adders), actions[..last], s0) && Steps(s0, actions[last], s);
      RunAdds(adders, actions[..last], s0, j);
      StepHands(s0, actions[last], j);
      StepAdds(s0, actions[last], j);
      Regroup(AddedBy(s0.added, j), InHand(s0, j), CalledWith(actions[last], j),
              PutIn(s0, actions[last], j), InHand(s, j));
    }
  }

  /**
    No task is lost, repeated or reordered: what was executed, the rest of the batch and the
    pending tasks are what was added, and thread by thread what was added is what `AddTask`
    was called with.  A sleeping worker with work has a notification coming.
   */
  lemma TasksInOrder(adders: nat, actions: seq<Action>, s: State)
    requires Run(Init(adders), actions, s)
    ensures s.executed + s.worker.Batch() + s.tasks == Tasks(s.added)
    ensures s.executed <= Tasks(s.added)
    ensures forall j: nat :: GivenTo(actions, j) == AddedBy(s.added, j) + InHand(s, j)
    ensures s.worker.Sleeping? && s.tasks != [] ==>
              exists j :: 0 <= j < |s.adders| && (s.adders[j].Unlocking? || s.adders[j].Notifying?)
  {
    RunKeepsInv(adders, actions, s);
    PrefixOfSum(s.executed, s.worker.Batch(), s.tasks);
    forall j: nat ensures GivenTo(actions, j) == AddedBy(s.added, j) + InHand(s, j) {
      RunAdds(adders, actions, s, j);
    }
    if s.worker.Sleeping? && s.tasks != [] {
      var j :| 0 <= j < |s.adders| && s.adders[j].OwesNotify();
    }
  }

  predicate AddersGone(s: State)
  {
    forall j :: 0 <= j < |s.adders| ==> s.adders[j].Outside?
  }

  /** Nobody can take a step of its own. */
  predicate AtRest(s: State)
  {
    !Enabled(s, WorkerStep) && forall j :: 0 <= j < |s.adders| ==> !Enabled(s, AdderStep(j))
  }

  lemma RestIsQuiet(s: State)
    requires Inv(s) && AtRest(s)
    ensures AddersGone(s) && (s.worker.Sleeping? || s.worker.Stopped?)
    ensures s.worker.Sleeping? ==> s.tasks == []
  {
    assert !s.mutex.Adder? by {
      assert s.mutex.Adder? ==> s.adders[s.mutex.j].HasMutex() && Enabled(s, AdderStep(s.mutex.j));
    }
    forall j | 0 <= j < |s.adders| ensures s.adders[j].Outside? {
      assert !Enabled(s, AdderStep(j));
    }
  }

  /** A stop has been requested in the run. */
  predicate StopRequested(actions: seq<Action>)
  {
    exists i :: 0 <= i < |actions| && actions[i].RequestStop?
  }

  lemma StepStops(s: State, a: Action)
    requires Enabled(s, a) && (s.worker.Stopped? ==> s.stop)
    ensures Next(s, a).worker.Stopped? ==> Next(s, a).stop
    ensures Next(s, a).stop <==> s.stop || a.RequestStop?
  {
  }

  /** The worker stops only when asked to, and is asked exactly when somebody has. */
  lemma {:induction false} StopsOnlyOnRequest(adders: nat, actions: seq<Action>, s: State)
    requires Run(Init(adders), actions, s)
    ensures s.worker.Stopped? ==> s.stop
    ensures s.stop <==> StopRequested(actions)
    decreases |actions|
  {
    if actions != [] {
      var last := |actions| - 1;
      var s0 :| Run(Init(adders), actions[..last], s0) && Steps(s0, actions[last], s);
      StopsOnlyOnRequest(adders, actions[..last], s0);
      StepStops(s0, actions[last]);
      RequestsSnoc(actions);
    }
  }

  lemma RequestsSnoc(actions: seq<Action>)
    requires actions != []
    ensures StopRequested(actions) <==>
            StopRequested(actions[..|actions| - 1]) || actions[|actions| - 1].RequestStop?
  {
    var before := actions[..|actions| - 1];
    assert StopRequested(before) ==> StopRequested(actions) by {
      if i :| 0 <= i < |before| && before[i].RequestStop? {
        assert actions[i].RequestStop?;
      }
    }
    if i :| 0 <= i < |actions| && actions[i].RequestStop? {
      assert i == |actions| - 1 || before[i].RequestStop?;
    }
  }

  /**
    When everything has come to rest the worker has executed all that was added, which is
    all that any thread asked for, or it has been asked to stop and has.
   */
  lemma RestMeansExecuted(adders: nat, actions: seq<Action>, s: State)
    requires Run(Init(adders), actions, s) && AtRest(s)
    ensures AddersGone(s)
    ensures forall j: nat :: AddedBy(s.added, j) == GivenTo(actions, j)
    ensures s.worker.Sleeping? ==> s.executed == Tasks(s.added)
    ensures s.worker.Sleeping? || (s.worker.Stopped? && StopRequested(actions))
  {
    RunKeepsInv(adders, actions, s);
    RestIsQuiet(s);
    StopsOnlyOnRequest(adders, actions, s);
    forall j: nat ensures AddedBy(s.added, j) == GivenTo(actions, j) {
      RunAdds(adders, actions, s, j);
    }
  }

  /** Unless somebody asks the worker to stop, a run at rest has executed every task anybody added. */
  lemma UnaskedRestExecutesAll(adders: nat, actions: seq<Action>, s: State)
    requires Run(Init(adders), actions, s) && AtRest(s) && !StopRequested(actions)
    ensures s.worker.Sleeping? && s.executed == Tasks(s.added)
    ensures forall j: nat :: AddedBy(s.added, j) == GivenTo(actions, j)
  {
    StopsOnlyOnRequest(adders, actions, s);
    RestMeansExecuted(adders, actions, s);
  }

  /**
    AddTask can be called and a stop requested at any time, and inside a call nobody waits but
    for the mutex, or, asleep, for a task.
   */
  lemma WaitsOnlyForMutexOrTask(s: State, j: nat, task: Task)
    requires j < |s.adders|
    ensures Enabled(s, RequestStop)
    ensures s.adders[j].Outside? ==> Enabled(s, BeginAdd(j, task))
    ensures !s.adders[j].Outside? ==> (Enabled(s, AdderStep(j)) <==> s.adders[j].Locking? ==> s.mutex.Nobody?)
    ensures Enabled(s, WorkerStep) || s.worker.Sleeping? || s.worker.Stopped? || !s.mutex.Nobody?
  {
  }

  // ---------- Every task gets executed ----------

  function AdderWork(pc: AdderPc): nat
  {
    match pc
    case Outside => 0
    case Locking(_) => 14
    case Pushing(_) => 13
    case Unlocking => 4
    case Notifying => 3
  }

  function AdderWeight(): AdderPc -> nat
  {
    (pc: AdderPc) => AdderWork(pc)
  }

  function WorkerWork(pc: WorkerPc): nat
  {
    match pc
    case CheckingStop => 3
    case Acquiring => 2
    case Reacquiring => 2
    case Testing => 1
    case Swapping => 0
    case Releasing(batch) => 2 * |batch| + 5
    case Executing(batch) => 2 * |batch| + 4
    case Sleeping => 0
    case Stopped => 0
  }

  function Measure(s: State): nat
  {
    Total(AdderWeight(), s.adders) + WorkerWork(s.worker) + 8 * |s.tasks|
  }

  /** Steps that the two calls of `AddTask` and `request_stop` from outside allow. */
  function Budget(a: Action): nat
  {
    match a
    case BeginAdd(_, _) => 15
    case RequestStop => 1
    case _ => 0
  }

  lemma AdderSpends(s: State, j: nat)
    requires Enabled(s, AdderStep(j))
    ensures Measure(AdderNext(s, j)) + 1 <= Measure(s)
  {
    TotalUpdate(AdderWeight(), s.adders, j, AdderNext(s, j).adders[j]);
    assert AdderNext(s, j).adders == s.adders[j := AdderNext(s, j).adders[j]];
  }

  lemma WorkerSpends(s: State)
    requires WakeOk(s) && Enabled(s, WorkerStep)
    ensures Measure(WorkerNext(s)) + 1 <= Measure(s)
  {
  }

  lemma StepSpends(s: State, a: Action)
    requires Inv(s) && Enabled(s, a) && !a.SpuriousWake?
    ensures Measure(Next(s, a)) + 1 <= Measure(s) + Budget(a)
  {
    match a
    case BeginAdd(j, task) => TotalUpdate(AdderWeight(), s.adders, j, Locking(task));
    case AdderStep(j) => AdderSpends(s, j);
    case WorkerStep => WorkerSpends(s);
    case RequestStop =>
  }

  function TotalBudget(actions: seq<Action>): nat
  {
    if actions == [] then 0
    else TotalBudget(actions[..|actions| - 1]) + Budget(actions[|actions| - 1])
  }

  lemma {:induction false} ScheduleEnds(s0: State, actions: seq<Action>, s: State)
    requires Inv(s0) && Run(s0, actions, s)
    requires forall i :: 0 <= i < |actions| ==> !actions[i].SpuriousWake?
    ensures Inv(s) && |actions| + Measure(s) <= Measure(s0) + TotalBudget(actions)
    decreases |actions|
  {
    if actions != [] {
      var last := |actions| - 1;
      var s1 :| Run(s0, actions[..last], s1) && Steps(s1, actions[last], s);
      ScheduleEnds(s0, actions[..last], s1);
      StepKeepsInv(s1, actions[last]);
      StepSpends(s1, actions[last]);
    }
  }

  /**
    Without spurious wakeups every schedule ends: three steps and fifteen for each task
    added.  With `RestMeansExecuted`, a worker not stopped has then executed every task.
   */
  lemma EveryScheduleEnds(adders: nat, actions: seq<Action>, s: State)
    requires Run(Init(adders), actions, s)
    requires forall i :: 0 <= i < |actions| ==> !actions[i].SpuriousWake?
    ensures |actions| + Measure(s) <= 3 + TotalBudget(actions)
  {
    TotalZero(AdderWeight(), Init(adders).adders);
    ScheduleEnds(Init(adders), actions, s);
  }

  // ---------- Stopping ----------

  /** Nothing is pending and nobody is about to add: the worker's next test of its wait condition fails. */
  predicate StopMissed(s: State)
  {
    && s.tasks == []
    && (forall j :: 0 <= j < |s.adders| ==> !s.adders[j].Locking? && !s.adders[j].Pushing?)
    && (s.worker.Acquiring? || s.worker.Testing? || s.worker.Sleeping? || s.worker.Reacquiring?)
  }

  predicate NoAdds(actions: seq<Action>)
  {
    forall i :: 0 <= i < |actions| ==> !actions[i].BeginAdd?
  }

  lemma StepMissesStop(s: State, a: Action)
    requires StopMissed(s) && Enabled(s, a) && !a.BeginAdd?
    ensures StopMissed(Next(s, a))
  {
  }

  /**
    The wait does not look at the stop token: once the worker is past its check with nothing
    to do and nobody adds any more, no request to stop ends it, whatever is scheduled and
    however often it wakes.
   */
  lemma {:induction false} StopIsUnseenWhileWaiting(s0: State, actions: seq<Action>, s: State)
    requires Run(s0, actions, s) && StopMissed(s0) && NoAdds(actions)
    ensures StopMissed(s) && !s.worker.Stopped?
    decreases |actions|
  {
    if actions != [] {
      var last := |actions| - 1;
      var s1 :| Run(s0, actions[..last], s1) && Steps(s1, actions[last], s);
      StopIsUnseenWhileWaiting(s0, actions[..last], s1);
      StepMissesStop(s1, actions[last]);
    }
  }

  lemma StepSeesStop(s: State, a: Action)
    requires s.stop && !StopMissed(s) && Enabled(s, a) && !a.BeginAdd?
    ensures Next(s, a).stop && !StopMissed(Next(s, a))
  {
    var s' := Next(s, a);
    if j :| 0 <= j < |s.adders| && (s.adders[j].Locking? || s.adders[j].Pushing?) {
      assert s'.adders[j].Locking? || s'.adders[j].Pushing? || s'.tasks != [];
    }
  }

  lemma {:induction false} RunSeesStop(s0: State, actions: seq<Action>, s: State)
    requires Run(s0, actions, s) && NoAdds(actions) && s0.stop && !StopMissed(s0)
    ensures s.stop && !StopMissed(s)
    decreases |actions|
  {
    if actions != [] {
      var last := |actions| - 1;
      var s1 :| Run(s0, actions[..last], s1) && Steps(s1, actions[last], s);
      RunSeesStop(s0, actions[..last], s1);
      StepSeesStop(s1, actions[last]);
    }
  }

  /** Once the worker is asked to stop and nobody adds any more, it stops if and only if it is not past its check. */
  lemma StopsIffNotMissed(s0: State, actions: seq<Action>, s: State)
    requires Inv(s0) && s0.stop && Run(s0, actions, s) && NoAdds(actions) && AtRest(s)
    ensures s.worker.Stopped? <==> !StopMissed(s0)
  {
    RunFromKeepsInv(s0, actions, s);
    RestIsQuiet(s);
    if StopMissed(s0) {
      StopIsUnseenWhileWaiting(s0, actions, s);
    } else {
      RunSeesStop(s0, actions, s);
    }
  }

  /** Only adder `j` has still to add, and while it does, or while tasks are pending, the worker has yet to swap. */
  predicate LastTask(s: State, j: nat)
  {
    && (forall i :: 0 <= i < |s.adders| && (s.adders[i].Locking? || s.adders[i].Pushing?) ==>
          i == j && s.tasks == []
          && (s.worker.Acquiring? || s.worker.Testing? || s.worker.Sleeping? || s.worker.Reacquiring?))
    && (s.worker.CheckingStop? || s.worker.Stopped? || s.worker.Releasing? || s.worker.Executing? ==> s.tasks == [])
  }

  lemma StepKeepsLastTask(s: State, a: Action, j: nat)
    requires LastTask(s, j) && Enabled(s, a) && !a.BeginAdd?
    ensures LastTask(Next(s, a), j)
  {
  }

  lemma {:induction false} RunKeepsLastTask(s0: State, actions: seq<Action>, s: State, j: nat)
    requires Run(s0, actions, s) && NoAdds(actions) && LastTask(s0, j)
    ensures LastTask(s, j)
    decreases |actions|
  {
    if actions != [] {
      var last := |actions| - 1;
      var s1 :| Run(s0, actions[..last], s1) && Steps(s1, actions[last], s);
      RunKeepsLastTask(s0, actions[..last], s1, j);
      StepKeepsLastTask(s1, actions[last], j);
    }
  }

  /** A stop that was missed is seen after one more task: the worker wakes, executes it and stops. */
  lemma OneMoreTaskFreesIt(s0: State, j: nat, task: Task, actions: seq<Action>, s: State)
    requires Inv(s0) && s0.stop && StopMissed(s0) && j < |s0.adders| && s0.adders[j].Outside?
    requires Run(Next(s0, BeginAdd(j, task)), actions, s) && NoAdds(actions) && AtRest(s)
    ensures s.worker.Stopped? && s.executed == Tasks(s.added)
  {
    var s1 := Next(s0, BeginAdd(j, task));
    StepKeepsInv(s0, BeginAdd(j, task));
    assert s1.adders[j].Locking?;
    StopsIffNotMissed(s1, actions, s);
    RunKeepsLastTask(s1, actions, s, j);
    RunFromKeepsInv(s1, actions, s);
  }

  /** However it is woken, the worker takes the mutex and looks: it swaps if there is work and sleeps on if not. */
  lemma WokenWorkerLooks(s: State)
    requires s.worker.Sleeping? && s.mutex.Nobody?
    ensures Enabled(s, SpuriousWake)
    ensures
      var s1 := Next(s, SpuriousWake);
      Enabled(s1, WorkerStep) && Enabled(Next(s1, WorkerStep), WorkerStep)
      && Next(Next(s1, WorkerStep), WorkerStep) == if s.tasks == [] then s else s.(mutex := Worker, worker := Swapping)
  {
  }

  /** Every state can come to rest without anybody adding. */
  lemma {:induction false} ComesToRest(s0: State, s: State, actions: seq<Action>)
    returns (actions': seq<Action>, s': State)
    requires Inv(s) && Run(s0, actions, s) && NoAdds(actions)
    ensures Run(s0, actions', s') && NoAdds(actions') && AtRest(s')
    decreases Measure(s)
  {
    if AtRest(s) {
      actions', s' := actions, s;
    } else {
      var a: Action;
      if Enabled(s, WorkerStep) {
        a := WorkerStep;
      } else {
        var j :| 0 <= j < |s.adders| && Enabled(s, AdderStep(j));
        a := AdderStep(j);
      }
      StepKeepsInv(s, a);
      StepSpends(s, a);
      RunSnoc(s0, actions, s, a);
      actions', s' := ComesToRest(s0, Next(s, a), actions + [a]);
    }
  }

  /** Two steps into the program a request to stop is already too late. */
  lemma StopCanBeMissed(adders: nat) returns (s: State)
    ensures Run(Init(adders), [WorkerStep, RequestStop], s) && s.stop && StopMissed(s)
  {
    var s0 := Init(adders);
    var s1 := Next(s0, WorkerStep);
    s := Next(s1, RequestStop);
    RunSnoc(s0, [], s0, WorkerStep);
    RunSnoc(s0, [] + [WorkerStep], s1, RequestStop);
    assert [] + [WorkerStep] + [RequestStop] == [WorkerStep, RequestStop];
  }
}
