/**
  When the array stack is a bounded LIFO: as long as no CAS is won on a cell that another
  operation has still to store or read, and what the values returned are otherwise.
 */
module ArrayStackLifo {
  import opened ArrayStack
  import opened ArrayStackReturns

  /** No operation still has to store or read this cell. */
  predicate Quiet(s: State, cell: nat)
  {
    forall t :: 0 <= t < |s.threads| && s.threads[t].Pending() ==> s.threads[t].cell != cell
  }

  /** An operation may win its CAS only for a cell that is quiet. */
  predicate Disciplined(s: State, a: Action)
    requires Enabled(s, a)
  {
    match Apply(s, a)
    case Next(_, PushWon(_)) => Quiet(s, s.head)
    case Next(_, PopWon) => s.head > 0 && Quiet(s, s.head - 1)
    case _ => true
  }

  predicate StoringAt(s: State, cell: nat)
  {
    exists t :: 0 <= t < |s.threads| && s.threads[t].Storing? && s.threads[t].cell == cell
  }

  /** Stores are pending below the head and reads above it. */
  predicate PendingOk(s: State, stack: seq<Value>, t: nat)
    requires t < |s.threads| && |stack| == s.head
  {
    match s.threads[t]
    case Storing(value, cell) => cell < s.head && stack[cell] == value
    case Reading(cell) => s.head <= cell < |s.buffer|
    case PushSwapping(_, top) => top < |s.buffer|
    case PopSwapping(top) => top > 0
    case _ => true
  }

  /** No two operations are about to touch the same cell. */
  predicate CellsApart(threads: seq<Pc>)
  {
    forall t, u :: 0 <= t < u < |threads| && threads[t].Pending() && threads[u].Pending() ==>
      threads[t].cell != threads[u].cell
  }

  /** `stack`, bottom first, is what the array stands for once pending stores land. */
  predicate Represents(s: State, stack: seq<Value>)
  {
    && |stack| == s.head <= |s.buffer|
    && (forall t :: 0 <= t < |s.threads| ==> PendingOk(s, stack, t))
    && CellsApart(s.threads)
    && (forall c :: 0 <= c < s.head ==> s.buffer[c] == stack[c] || StoringAt(s, c))
  }

  /** The value that a pop which has won its CAS is going to return. */
  function Promised(s: State, t: nat): Value
    requires t < |s.threads| && s.threads[t].Reading? && s.threads[t].cell < |s.buffer|
  {
    s.buffer[s.threads[t].cell]
  }

  lemma ReadsInRange(s: State, stack: seq<Value>, a: Action)
    requires Represents(s, stack) && Enabled(s, a)
    ensures Apply(s, a).Next?
    ensures |StackAfter(stack, Apply(s, a).e)| == Apply(s, a).s.head <= |Apply(s, a).s.buffer| == |s.buffer|
  {
    assert PendingOk(s, stack, a.t);
  }

  /** The operation that takes a step is afterwards where its program counter says. */
  lemma OwnPendingKept(s: State, stack: seq<Value>, a: Action, s': State, e: Event)
    requires |stack| == s.head <= |s.buffer| && Steps(s, a, s', e) && PendingOk(s, stack, a.t)
    requires |StackAfter(stack, e)| == s'.head
    ensures PendingOk(s', StackAfter(stack, e), a.t)
  {
  }

  /** A CAS moves the head past no cell that another operation has still to touch. */
  lemma HeadPasses(s: State, a: Action, s': State, e: Event, t: nat)
    requires Steps(s, a, s', e) && Disciplined(s, a) && t < |s.threads| && t != a.t && s.threads[t].Pending()
    ensures s'.head == s.head
         || (e.PushWon? && s'.head == s.head + 1 && s.threads[t].cell != s.head)
         || (e.PopWon? && s'.head == s.head - 1 && s.threads[t].cell != s.head - 1)
  {
  }

  lemma OtherPendingKept(s: State, stack: seq<Value>, a: Action, s': State, e: Event, t: nat)
    requires |stack| == s.head && Steps(s, a, s', e) && Disciplined(s, a)
    requires t < |s.threads| && t != a.t && PendingOk(s, stack, t) && |StackAfter(stack, e)| == s'.head
    ensures t < |s'.threads| && PendingOk(s', StackAfter(stack, e), t)
  {
    StepShape(s, a, s', e);
    if s.threads[t].Pending() {
      HeadPasses(s, a, s', e, t);
    }
  }

  lemma ApartKept(s: State, a: Action)
    requires CellsApart(s.threads) && Enabled(s, a) && Disciplined(s, a) && Apply(s, a).Next?
    ensures CellsApart(Apply(s, a).s.threads)
  {
    var s' := Apply(s, a).s;
    assert s'.threads == s.threads[a.t := s'.threads[a.t]];
    if s'.threads[a.t].Pending() {
      assert Quiet(s, s'.threads[a.t].cell);
    }
  }

  lemma CellsKept(s: State, stack: seq<Value>, a: Action, c: nat)
    requires Represents(s, stack) && Enabled(s, a)
    requires Apply(s, a).Next? && |StackAfter(stack, Apply(s, a).e)| == Apply(s, a).s.head
    requires c < Apply(s, a).s.head && c < |Apply(s, a).s.buffer|
    ensures Apply(s, a).s.buffer[c] == StackAfter(stack, Apply(s, a).e)[c] || StoringAt(Apply(s, a).s, c)
  {
    var Next(s', e) := Apply(s, a);
    assert PendingOk(s, stack, a.t);
    if e.PushWon? && c == s.head {
      assert s'.threads[a.t].Storing? && s'.threads[a.t].cell == c;
    } else if StoringAt(s, c) {
      var t :| 0 <= t < |s.threads| && s.threads[t].Storing? && s.threads[t].cell == c;
      if t != a.t {
        assert s'.threads[t].Storing? && s'.threads[t].cell == c;
      }
    }
  }

  /** What one step must do to the bounded stack. */
  predicate LifoAllows(s: State, stack: seq<Value>, a: Action)
    requires Enabled(s, a)
  {
    match Apply(s, a)
    case Next(s', PushFull(_)) => |stack| == |s.buffer|
    case Next(s', PushWon(_)) => |stack| < |s.buffer|
    case Next(s', PopEmpty) => stack == []
    case Next(s', PopWon) =>
      && stack != []
      && a.t < |s'.threads| && s'.threads[a.t].Reading? && s'.threads[a.t].cell < |s'.buffer|
      && Promised(s', a.t) == stack[|stack| - 1]
    case Next(_, _) => true
    case OutOfRange => false
  }

  /**
    As long as every CAS is won on a quiet cell the array is a bounded LIFO, however the
    operations overlap otherwise: full and empty are reported exactly, a push adds its
    value on top when it wins, and a pop takes the top when it wins.
   */
  lemma DisciplinedStepIsLifo(s: State, stack: seq<Value>, a: Action)
    requires Represents(s, stack) && Enabled(s, a) && Disciplined(s, a)
    ensures Apply(s, a).Next?
    ensures Represents(Apply(s, a).s, StackAfter(stack, Apply(s, a).e))
    ensures LifoAllows(s, stack, a)
  {
    ReadsInRange(s, stack, a);
    ApartKept(s, a);
    var Next(s', e) := Apply(s, a);
    forall t | 0 <= t < |s.threads| ensures PendingOk(s', StackAfter(stack, e), t) {
      assert PendingOk(s, stack, t);
      if t == a.t {
        OwnPendingKept(s, stack, a, s', e);
      } else {
        OtherPendingKept(s, stack, a, s', e, t);
      }
    }
    forall c | 0 <= c < Apply(s, a).s.head
      ensures Apply(s, a).s.buffer[c] == StackAfter(stack, Apply(s, a).e)[c] || StoringAt(Apply(s, a).s, c)
    {
      CellsKept(s, stack, a, c);
    }
    if Apply(s, a).e.PopWon? {
      assert StoringAt(s, s.head - 1) || s.buffer[s.head - 1] == stack[s.head - 1];
    }
  }

  /** The promise of a pop is kept until it reads. */
  lemma PromiseKept(s: State, stack: seq<Value>, a: Action, t: nat)
    requires Represents(s, stack) && Enabled(s, a) && t < |s.threads| && s.threads[t].Reading?
    ensures Apply(s, a).Next? && s.threads[t].cell < |s.buffer|
    ensures a.t != t ==> Apply(s, a).s.threads[t] == s.threads[t]
                         && |Apply(s, a).s.buffer| == |s.buffer| && Promised(Apply(s, a).s, t) == Promised(s, t)
    ensures a.t == t ==> Apply(s, a).e == PopDone(Promised(s, t))
  {
    assert PendingOk(s, stack, t) && PendingOk(s, stack, a.t);
  }

  /** A run in which every CAS is won on a quiet cell. */
  ghost predicate DisciplinedRun(capacity: nat, threads: nat, actions: seq<Action>, s: State, log: seq<Event>)
    decreases |actions|
  {
    if actions == [] then
      s == Init(capacity, threads) && log == []
    else
      var last := |actions| - 1;
      && |log| == |actions|
      && exists s0 ::
           && DisciplinedRun(capacity, threads, actions[..last], s0, log[..last])
           && Steps(s0, actions[last], s, log[last])
           && Disciplined(s0, actions[last])
  }

  /** Nothing pending on the cell means nothing that could disagree. */
  lemma DisciplinedAgrees(s: State, stack: seq<Value>, owed: seq<Value>, a: Action, s': State, e: Event)
    requires Represents(s, stack) && |owed| == |s.threads| && Steps(s, a, s', e) && Disciplined(s, a)
    ensures Agreeing(s, stack, owed, e)
  {
    if e.PopWon? {
      assert !StoringAt(s, s.head - 1);
    }
  }

  lemma {:induction false} DisciplinedRunAgrees(capacity: nat, threads: nat, actions: seq<Action>, s: State,
                                                log: seq<Event>)
    requires DisciplinedRun(capacity, threads, actions, s, log)
    ensures AgreeingRun(capacity, threads, actions, s, log)
    ensures Represents(s, StackOf(log)) && |s.buffer| == capacity && |s.threads| == threads
    decreases |actions|
  {
    if actions != [] {
      var last := |actions| - 1;
      var before, log0, a, e := actions[..last], log[..last], actions[last], log[last];
      var s0 :| DisciplinedRun(capacity, threads, before, s0, log0) && Steps(s0, a, s, e) && Disciplined(s0, a);
      DisciplinedRunAgrees(capacity, threads, before, s0, log0);
      DisciplinedStepIsLifo(s0, StackOf(log0), a);
      DisciplinedAgrees(s0, StackOf(log0), OwedOf(threads, before, log0), a, s, e);
      StepShape(s0, a, s, e);
    }
  }

  /**
    Every such run is one of a bounded stack: the stack that its won CASes make is at every
    point the one the array stands for, full and empty are reported exactly, and thread by
    thread the values returned by pops are the ones taken from the top, in order.
   */
  lemma DisciplinedRunIsLifo(capacity: nat, threads: nat, actions: seq<Action>, s: State, log: seq<Event>)
    requires DisciplinedRun(capacity, threads, actions, s, log)
    ensures Represents(s, StackOf(log)) && |s.buffer| == capacity
    ensures |log| == |actions| && ReturnsWhatItTook(threads, actions, s, log)
    ensures forall a :: Enabled(s, a) && Disciplined(s, a) ==> LifoAllows(s, StackOf(log), a)
  {
    DisciplinedRunAgrees(capacity, threads, actions, s, log);
    AgreeingRunReturns(capacity, threads, actions, s, log);
    forall a | Enabled(s, a) && Disciplined(s, a) ensures LifoAllows(s, StackOf(log), a) {
      DisciplinedStepIsLifo(s, StackOf(log), a);
    }
  }

  // ---------- The discipline is needed ----------

  /**
    A pop that wins the top cell while its push has yet to store it, and reads at once,
    returns what the cell held before: the top of the stack only if the two happen to agree.
   */
  lemma BusyPopReadsOldCell(s: State, stack: seq<Value>, x: nat, y: nat)
    requires Represents(s, stack) && x < |s.threads| && y < |s.threads|
    requires s.head > 0 && s.threads[x].Storing? && s.threads[x].cell == s.head - 1
    requires s.threads[y] == PopSwapping(s.head)
    ensures
      var s1 := Apply(s, Advance(y, false)).s;
      var e := Apply(s1, Advance(y, false)).e;
      && Apply(s, Advance(y, false)).e.PopWon?
      && e == PopDone(s.buffer[s.head - 1])
      && (e == PopDone(stack[s.head - 1]) <==> s.buffer[s.head - 1] == s.threads[x].value)
  {
    assert PendingOk(s, stack, x);
  }

  /**
    A push that wins a cell which an earlier pop has yet to read, and stores at once, makes
    that pop return the new value instead of the one it took.
   */
  lemma BusyPushOverwritesPromise(s: State, stack: seq<Value>, x: nat, y: nat)
    requires Represents(s, stack) && x < |s.threads| && y < |s.threads|
    requires s.threads[x] == Reading(s.head)
    requires s.threads[y].PushSwapping? && s.threads[y].top == s.head
    ensures s.head < |s.buffer|
    ensures
      var s1 := Apply(s, Advance(y, false)).s;
      var s2 := Apply(s1, Advance(y, false)).s;
      var e := Apply(s2, Advance(x, false)).e;
      && e == PopDone(s.threads[y].value)
      && (e == PopDone(Promised(s, x)) <==> s.buffer[s.head] == s.threads[y].value)
  {
    assert PendingOk(s, stack, x) && PendingOk(s, stack, y);
  }

  /** A CAS won on a cell that is not quiet is always one of those two. */
  lemma BusyCasIsOneOfTwo(s: State, stack: seq<Value>, y: nat) returns (x: nat)
    requires Represents(s, stack) && Enabled(s, Advance(y, false)) && !Disciplined(s, Advance(y, false))
    ensures x < |s.threads|
    ensures || (s.head > 0 && s.threads[x].Storing? && s.threads[x].cell == s.head - 1
                && s.threads[y] == PopSwapping(s.head))
            || (s.threads[x] == Reading(s.head) && s.threads[y].PushSwapping? && s.threads[y].top == s.head)
  {
    ReadsInRange(s, stack, Advance(y, false));
    assert PendingOk(s, stack, y);
    var cell := if s.threads[y].PushSwapping? then s.head else s.head - 1;
    x :| 0 <= x < |s.threads| && s.threads[x].Pending() && s.threads[x].cell == cell;
    assert PendingOk(s, stack, x);
  }

  /** A step leads to a state that stands for some bounded stack if and only if it is disciplined. */
  lemma StepRepresentsIffDisciplined(s: State, stack: seq<Value>, a: Action)
    requires Represents(s, stack) && Enabled(s, a)
    ensures Apply(s, a).Next?
    ensures (exists stack' :: Represents(Apply(s, a).s, stack')) <==> Disciplined(s, a)
  {
    ReadsInRange(s, stack, a);
    if Disciplined(s, a) {
      DisciplinedStepIsLifo(s, stack, a);
    } else {
      assert a == Advance(a.t, false);
      var x := BusyCasIsOneOfTwo(s, stack, a.t);
      forall stack' ensures !Represents(Apply(s, a).s, stack') {
        assert |stack'| == Apply(s, a).s.head ==> !PendingOk(Apply(s, a).s, stack', x);
      }
    }
  }

  // ---------- What winning a busy cell means for the values returned ----------

  /** All that is pending on the cell this step wins agrees with it in value. */
  predicate CellAgrees(s: State, e: Event)
  {
    match e
    case PushWon(v) =>
      forall t :: 0 <= t < |s.threads| && s.threads[t].Pending() && s.threads[t].cell == s.head ==>
        s.head < |s.buffer| && s.buffer[s.head] == v
    case PopWon =>
      forall t :: 0 <= t < |s.threads| && s.threads[t].Storing? && s.threads[t].cell == s.head - 1 ==>
        0 < s.head <= |s.buffer| && s.buffer[s.head - 1] == s.threads[t].value
    case _ => true
  }

  /** The pops that have won owe what their cells hold. */
  predicate OwesPromised(s: State, owed: seq<Value>)
  {
    && |owed| == |s.threads|
    && forall t :: 0 <= t < |s.threads| && s.threads[t].Reading? ==>
         s.threads[t].cell < |s.buffer| && owed[t] == Promised(s, t)
  }

  lemma RepresentsInRange(s: State, stack: seq<Value>)
    requires Represents(s, stack)
    ensures InRange(s)
  {
    forall t | 0 <= t < |s.threads| && s.threads[t].Pending() ensures s.threads[t].cell < |s.buffer| {
      assert PendingOk(s, stack, t);
    }
  }

  lemma StaysInRange(s: State, stack: seq<Value>, a: Action, s': State, e: Event)
    requires Represents(s, stack) && Steps(s, a, s', e)
    ensures InRange(s) && InRange(s')
  {
    RepresentsInRange(s, stack);
    StepShape(s, a, s', e);
    assert PendingOk(s, stack, a.t);
    assert s'.threads[a.t].Pending() ==> s'.threads[a.t].cell < |s'.buffer|;
  }

  lemma PromisesSettled(s: State, stack: seq<Value>, owed: seq<Value>)
    requires Represents(s, stack) && OwesPromised(s, owed)
    ensures AllSettled(s, owed)
  {
    forall t, u | 0 <= t < |s.threads| && 0 <= u < |s.threads| && s.threads[t].Reading? && s.threads[u].Storing?
      ensures s.threads[u].cell != s.threads[t].cell
    {
      assert PendingOk(s, stack, t) && PendingOk(s, stack, u);
    }
  }

  /** Stores still to come to the top cell bring the value on top. */
  lemma TopCell(s: State, stack: seq<Value>)
    requires Represents(s, stack) && s.head > 0
    ensures forall u :: 0 <= u < |s.threads| && s.threads[u].Storing? && s.threads[u].cell == s.head - 1 ==>
              s.threads[u].value == Top(stack)
    ensures s.buffer[s.head - 1] == Top(stack) || StoringAt(s, s.head - 1)
  {
    forall u | 0 <= u < |s.threads| && s.threads[u].Storing? && s.threads[u].cell == s.head - 1
      ensures s.threads[u].value == Top(stack)
    {
      assert PendingOk(s, stack, u);
    }
  }

  /** What is pending just above the head is reads. */
  lemma FreeCell(s: State, stack: seq<Value>, t: nat)
    requires Represents(s, stack) && t < |s.threads| && s.threads[t].Pending() && s.threads[t].cell == s.head
    ensures s.threads[t].Reading? && s.head < |s.buffer|
  {
    assert PendingOk(s, stack, t);
  }

  lemma AgreeingIsCellAgrees(s: State, stack: seq<Value>, owed: seq<Value>, a: Action, s': State, e: Event)
    requires Represents(s, stack) && OwesPromised(s, owed) && Steps(s, a, s', e)
    ensures Agreeing(s, stack, owed, e) <==> CellAgrees(s, e)
  {
    if e.PopWon? {
      PopWonOutcome(s, a, s');
      TopCell(s, stack);
    } else if e.PushWon? {
      forall t | 0 <= t < |s.threads| && s.threads[t].Pending() && s.threads[t].cell == s.head
        ensures s.threads[t].Reading? && s.head < |s.buffer| && owed[t] == s.buffer[s.head]
      {
        FreeCell(s, stack, t);
      }
    }
  }

  /**
    From a state that stands for a bounded stack, whatever step is taken: afterwards every pop
    that has won is bound to return the value it took, however the pending stores and reads
    land, if and only if all that was pending on the cell won agreed with it in value.
   */
  lemma BoundIffCellAgrees(s: State, stack: seq<Value>, owed: seq<Value>, a: Action, s': State, e: Event)
    requires Represents(s, stack) && OwesPromised(s, owed) && Steps(s, a, s', e)
    ensures |s'.threads| == |s.threads|
    ensures AllBound(s', OwedAfter(owed, stack, a, e)) <==> CellAgrees(s, e)
  {
    PromisesSettled(s, stack, owed);
    StaysInRange(s, stack, a, s', e);
    StepSettledIffAgreeing(s, stack, owed, a, s', e);
    AgreeingIsCellAgrees(s, stack, owed, a, s', e);
    AllBoundIffSettled(s', OwedAfter(owed, stack, a, e));
  }
}
