/**
  What every run of the linked stack does when one thread pops and any number push: it
  refines the mutex-protected stack, never touches a freed node, and leaks nothing.  With
  two poppers the second half fails.
 */
module LinkedStackTheorems {
  import opened LinkedStack
  import opened Sequences

  // ---------- The mutex-protected stack ----------

  datatype Option<+T> = None | Some(value: T)

  /** The stack, top first, and the value a pop has taken but not yet returned. */
  datatype Spec = Spec(stack: seq<Value>, taken: Option<Value>)

  /** `SPSCStack`: what a lock around a plain stack allows. */
  class MutexStack {
    var stack: seq<Value>

    constructor ()
      ensures stack == []
    {
      stack := [];
    }

    method Push(value: Value)
      modifies this
      ensures Replays(Spec(old(stack), None), [PushDone(value)], Spec(stack, None))
    {
      stack := [value] + stack;
      ReplayOne(Spec(old(stack), None), PushDone(value));
    }

    /** An empty stack yields nothing and stays empty; otherwise the top is taken and returned. */
    method Pop() returns (result: Option<Value>)
      modifies this
      ensures result.None? ==> Replays(Spec(old(stack), None), [PopEmpty], Spec(stack, None))
      ensures result.Some? ==> Replays(Spec(old(stack), None), [Unlinked, PopDone(result.value)], Spec(stack, None))
    {
      result := None;
      if stack == [] {
        ReplayOne(Spec(stack, None), PopEmpty);
        return;
      }
      result := Some(stack[0]);
      stack := stack[1..];
      ReplayOne(Spec(old(stack), None), Unlinked);
      assert [Unlinked, PopDone(result.value)][..1] == [Unlinked];
    }
  }

  /** The effect of one event on the mutex-protected stack, if it allows the event. */
  function MutexStep(q: Spec, e: Event): Option<Spec>
  {
    match e
    case PushDone(v) => Some(q.(stack := [v] + q.stack))
    case PopEmpty => if q.stack == [] then Some(q) else None
    case Unlinked => if q.stack != [] then Some(Spec(q.stack[1..], Some(q.stack[0]))) else None
    case PopDone(v) => if q.taken == Some(v) then Some(q.(taken := None)) else None
    case _ => Some(q)
  }

  /** The mutex-protected stack allows all of `log`, and it takes `q0` to `q`. */
  predicate Replays(q0: Spec, log: seq<Event>, q: Spec)
    decreases |log|
  {
    Replay(q0, log) == Some(q)
  }

  function Replay(q0: Spec, log: seq<Event>): Option<Spec>
    decreases |log|
  {
    if log == [] then Some(q0)
    else
      match Replay(q0, log[..|log| - 1])
      case None => None
      case Some(q) => MutexStep(q, log[|log| - 1])
  }

  lemma ReplaySnoc(q0: Spec, log: seq<Event>, q: Spec, q': Spec)
    requires log != [] && Replays(q0, log[..|log| - 1], q) && MutexStep(q, log[|log| - 1]) == Some(q')
    ensures Replays(q0, log, q')
  {
  }

  lemma ReplayOne(q: Spec, e: Event)
    ensures Replay(q, [e]) == MutexStep(q, e)
  {
    assert [e][..0] == [];
  }

  // ---------- Refinement ----------

  /** The values along a chain, top first. */
  function Contents(chain: seq<Addr>, heap: map<Addr, Node>): seq<Value>
    requires forall a :: a in chain ==> a in heap
  {
    if chain == [] then [] else [heap[chain[0]].data] + Contents(chain[1..], heap)
  }

  lemma ContentsPush(chain: seq<Addr>, heap: map<Addr, Node>, node: Addr)
    requires node in heap && forall a :: a in chain ==> a in heap
    ensures Contents([node] + chain, heap) == [heap[node].data] + Contents(chain, heap)
  {
    assert ([node] + chain)[1..] == chain;
  }

  function Taken(s: State, popper: nat): Option<Value>
  {
    if popper < |s.threads| then
      match s.threads[popper]
      case Detached(top) => if top in s.heap then Some(s.heap[top].data) else None
      case Deleting(_, value) => Some(value)
      case _ => None
    else None
  }

  function Abstract(s: State, chain: seq<Addr>, popper: nat): Spec
    requires IsChain(s.head, s.heap, chain)
  {
    Spec(Contents(chain, s.heap), Taken(s, popper))
  }

  /** The list from the head is unique, so the abstraction depends on the state alone. */
  lemma {:induction false} ChainUnique(head: Addr, heap: map<Addr, Node>, chain: seq<Addr>, chain': seq<Addr>)
    requires IsChain(head, heap, chain) && IsChain(head, heap, chain')
    ensures chain == chain'
    decreases |chain|
  {
    if chain != [] {
      ChainTail(head, heap, chain);
      ChainTail(head, heap, chain');
      ChainUnique(heap[head].next, heap, chain[1..], chain'[1..]);
      assert chain == [head] + chain[1..] && chain' == [head] + chain'[1..];
    }
  }

  /** What one step must do to the abstract stack. */
  predicate Refines(s: State, chain: seq<Addr>, popper: nat, a: Action)
    requires IsChain(s.head, s.heap, chain) && Enabled(s, a) && Apply(s, a).Next?
  {
    var Next(s', e) := Apply(s, a);
    var chain' := NextChain(s, chain, a, e);
    && IsChain(s'.head, s'.heap, chain')
    && MutexStep(Abstract(s, chain, popper), e) == Some(Abstract(s', chain', popper))
  }

  lemma {:induction false} ContentsKept(chain: seq<Addr>, heap: map<Addr, Node>, heap': map<Addr, Node>)
    requires forall a :: a in chain ==> a in heap && a in heap' && heap'[a].data == heap[a].data
    ensures Contents(chain, heap') == Contents(chain, heap)
  {
    if chain != [] {
      ContentsKept(chain[1..], heap, heap');
    }
  }

  lemma BeginRefines(s: State, chain: seq<Addr>, popper: nat, a: Action)
    requires IsChain(s.head, s.heap, chain) && Disjoint(s, chain) && Enabled(s, a) && !a.Advance?
    requires IsChain(Apply(s, a).s.head, Apply(s, a).s.heap, chain)
    ensures Refines(s, chain, popper, a)
  {
    ContentsKept(chain, s.heap, Apply(s, a).s.heap);
  }

  lemma TakenKept(s: State, chain: seq<Addr>, popper: nat, a: Action)
    requires Disjoint(s, chain) && Enabled(s, a) && a.Advance? && !s.threads[a.t].Popping() && Apply(s, a).Next?
    ensures Taken(Apply(s, a).s, popper) == Taken(s, popper)
  {
    var node := s.threads[a.t].Owned();
    if popper < |s.threads| && s.threads[popper].Detached? {
      assert s.threads[popper].Owned() != node;
    }
  }

  /** Storing to its own node, a push changes nothing the abstraction sees. */
  lemma PrivateStepRefines(s: State, chain: seq<Addr>, popper: nat, a: Action)
    requires IsChain(s.head, s.heap, chain)
    requires Enabled(s, a) && a.Advance? && !s.threads[a.t].Popping() && s.threads[a.t].Owned() !in chain
    requires Apply(s, a).Next? && !Apply(s, a).e.PushDone?
    requires Taken(Apply(s, a).s, popper) == Taken(s, popper)
    requires IsChain(Apply(s, a).s.head, Apply(s, a).s.heap, chain)
    ensures Refines(s, chain, popper, a)
  {
    ContentsKept(chain, s.heap, Apply(s, a).s.heap);
  }

  lemma PushDoneRefines(s: State, chain: seq<Addr>, popper: nat, a: Action)
    requires IsChain(s.head, s.heap, chain)
    requires Enabled(s, a) && a.Advance? && s.threads[a.t].Linked?
    requires Apply(s, a).Next? && Apply(s, a).e.PushDone?
    requires IsChain(Apply(s, a).s.head, Apply(s, a).s.heap, [s.threads[a.t].node] + chain)
    ensures Refines(s, chain, popper, a)
  {
    ContentsPush(chain, s.heap, s.threads[a.t].node);
  }

  lemma UnlinkRefines(s: State, chain: seq<Addr>, popper: nat, a: Action)
    requires IsChain(s.head, s.heap, chain) && chain != []
    requires Enabled(s, a) && a.Advance? && a.t == popper
    requires s.threads[popper].Swinging? && s.threads[popper].top == s.head
    requires Apply(s, a).Next? && Apply(s, a).e.Unlinked?
    requires IsChain(Apply(s, a).s.head, Apply(s, a).s.heap, chain[1..])
    ensures Refines(s, chain, popper, a)
  {
    assert Contents(chain, s.heap)[1..] == Contents(chain[1..], s.heap);
  }

  /** A pop reports empty only on null, and hands back what it took when it frees the node. */
  lemma PopTakes(s: State, chain: seq<Addr>, popper: nat, a: Action)
    requires popper < |s.threads| && ThreadOk(s, chain, popper)
    requires Enabled(s, a) && a.Advance? && a.t == popper && s.threads[popper].Popping()
    requires Apply(s, a).Next? && !Apply(s, a).e.Unlinked?
    ensures
      var Next(s', e) := Apply(s, a);
      && !e.PushDone?
      && (e.PopEmpty? ==> s.head == NULL)
      && (if e.PopDone? then Taken(s, popper) == Some(e.value) && Taken(s', popper) == None
          else Taken(s', popper) == Taken(s, popper))
  {
  }

  lemma PopRefines(s: State, chain: seq<Addr>, popper: nat, a: Action)
    requires IsChain(s.head, s.heap, chain) && popper < |s.threads| && ThreadOk(s, chain, popper)
    requires Enabled(s, a) && a.Advance? && a.t == popper && s.threads[popper].Popping()
    requires Apply(s, a).Next? && !Apply(s, a).e.Unlinked?
    requires IsChain(Apply(s, a).s.head, Apply(s, a).s.heap, chain)
    ensures Refines(s, chain, popper, a)
  {
    PopTakes(s, chain, popper, a);
    assert s.head == NULL ==> chain == [];
    ContentsKept(chain, s.heap, Apply(s, a).s.heap);
  }

  lemma StepKeepsChain(s: State, chain: seq<Addr>, popper: nat, a: Action)
    requires Inv(s, chain, popper) && Enabled(s, a) && (a.BeginPop? ==> a.t == popper)
    ensures Apply(s, a).Next?
    ensures IsChain(Apply(s, a).s.head, Apply(s, a).s.heap, NextChain(s, chain, a, Apply(s, a).e))
  {
    NoFault(s, chain, popper, a);
    StepKeepsInv(s, chain, popper, a, Apply(s, a).s, Apply(s, a).e);
  }

  lemma AdvancePushRefines(s: State, chain: seq<Addr>, popper: nat, a: Action)
    requires Inv(s, chain, popper) && Enabled(s, a) && a.Advance? && !s.threads[a.t].Popping()
    ensures Apply(s, a).Next? && Refines(s, chain, popper, a)
  {
    StepKeepsChain(s, chain, popper, a);
    if Apply(s, a).e.PushDone? {
      PushDoneRefines(s, chain, popper, a);
    } else {
      TakenKept(s, chain, popper, a);
      PrivateStepRefines(s, chain, popper, a);
    }
  }

  lemma UnlinkStepRefines(s: State, chain: seq<Addr>, popper: nat, a: Action)
    requires Inv(s, chain, popper) && Enabled(s, a) && a.Advance? && s.threads[a.t].Popping()
    requires Apply(s, a).Next? && Apply(s, a).e.Unlinked?
    ensures Refines(s, chain, popper, a)
  {
    StepKeepsChain(s, chain, popper, a);
    UnlinkTakesHead(s, chain, popper, a.t);
    UnlinkRefines(s, chain, popper, a);
  }

  lemma PopStepRefines(s: State, chain: seq<Addr>, popper: nat, a: Action)
    requires Inv(s, chain, popper) && Enabled(s, a) && a.Advance? && s.threads[a.t].Popping()
    requires Apply(s, a).Next? && !Apply(s, a).e.Unlinked?
    ensures Refines(s, chain, popper, a)
  {
    StepKeepsChain(s, chain, popper, a);
    assert a.t == popper && ThreadOk(s, chain, popper);
    PopRefines(s, chain, popper, a);
  }

  /**
    One step is one step of the mutex-protected stack, or none, and a push that takes effect
    pushes the value its thread was called with.
   */
  lemma StepRefines(s: State, chain: seq<Addr>, popper: nat, a: Action)
    requires Inv(s, chain, popper) && Enabled(s, a) && (a.BeginPop? ==> a.t == popper)
    ensures Apply(s, a).Next? && Refines(s, chain, popper, a)
    ensures Apply(s, a).e.PushDone? ==>
              s.threads[a.t].Linked? && Apply(s, a).e == PushDone(s.threads[a.t].value)
  {
    assert ThreadOk(s, chain, a.t);
    if !a.Advance? {
      StepKeepsChain(s, chain, popper, a);
      BeginRefines(s, chain, popper, a);
    } else if !s.threads[a.t].Popping() {
      AdvancePushRefines(s, chain, popper, a);
    } else {
      NoFault(s, chain, popper, a);
      if Apply(s, a).e.Unlinked? {
        UnlinkStepRefines(s, chain, popper, a);
      } else {
        PopStepRefines(s, chain, popper, a);
      }
    }
  }

  // ---------- What is pushed ----------

  /** The argument, if thread `t` calls Push in this step. */
  function Called(a: Action, t: nat): seq<Value>
  {
    if a.BeginPush? && a.t == t then [a.value] else []
  }

  /** The value, if a push of thread `t` takes effect in this step. */
  function Landed(a: Action, e: Event, t: nat): seq<Value>
  {
    if e.PushDone? && a.t == t then [e.value] else []
  }

  /** The argument of the push thread `t` is in, if it has not taken effect yet. */
  function InFlight(s: State, t: nat): seq<Value>
  {
    if t < |s.threads| && s.threads[t].Pushing() then [s.threads[t].value] else []
  }

  /** The arguments thread `t` has called Push with, in order. */
  function AllCalled(actions: seq<Action>, t: nat): seq<Value>
  {
    if actions == [] then []
    else AllCalled(actions[..|actions| - 1], t) + Called(actions[|actions| - 1], t)
  }

  /** The values that the pushes of thread `t` have put on the stack, in order. */
  function AllLanded(actions: seq<Action>, log: seq<Event>, t: nat): seq<Value>
    requires |log| == |actions|
  {
    if actions == [] then []
    else
      var last := |actions| - 1;
      AllLanded(actions[..last], log[..last], t) + Landed(actions[last], log[last], t)
  }

  /** Thread by thread, what was called is what has landed and what is still under way. */
  ghost predicate EachLandsOnce(actions: seq<Action>, log: seq<Event>, s: State)
    requires |log| == |actions|
  {
    forall t: nat :: AllCalled(actions, t) == AllLanded(actions, log, t) + InFlight(s, t)
  }

  lemma StepLands(s: State, chain: seq<Addr>, a: Action, s': State, e: Event, t: nat)
    requires Steps(s, a, s', e) && ThreadOk(s, chain, a.t)
    ensures InFlight(s, t) + Called(a, t) == Landed(a, e, t) + InFlight(s', t)
  {
  }

  lemma LandsSnoc(actions: seq<Action>, log: seq<Event>, s0: State, chain: seq<Addr>, s: State)
    requires actions != [] && |log| == |actions|
    requires Steps(s0, actions[|actions| - 1], s, log[|log| - 1]) && ThreadOk(s0, chain, actions[|actions| - 1].t)
    requires EachLandsOnce(actions[..|actions| - 1], log[..|log| - 1], s0)
    ensures EachLandsOnce(actions, log, s)
  {
    var last := |actions| - 1;
    var a, e := actions[last], log[last];
    forall t: nat ensures AllCalled(actions, t) == AllLanded(actions, log, t) + InFlight(s, t) {
      StepLands(s0, chain, a, s, e, t);
      Regroup(AllLanded(actions[..last], log[..last], t), InFlight(s0, t), Called(a, t),
              Landed(a, e, t), InFlight(s, t));
    }
  }

  // ---------- What a pop answers ----------

  /** How many pops thread `t` has called. */
  function PopsCalled(actions: seq<Action>, t: nat): nat
  {
    if actions == [] then 0
    else PopsCalled(actions[..|actions| - 1], t) + if actions[|actions| - 1] == BeginPop(t) then 1 else 0
  }

  /** The answer, if a pop of thread `t` returns in this step: nothing, or a value. */
  function Answered(a: Action, e: Event, t: nat): seq<Option<Value>>
  {
    if a.t != t then []
    else if e.PopEmpty? then [None]
    else if e.PopDone? then [Some(e.value)]
    else []
  }

  /** The answers the pops of thread `t` have returned, in order. */
  function AllAnswered(actions: seq<Action>, log: seq<Event>, t: nat): seq<Option<Value>>
    requires |log| == |actions|
  {
    if actions == [] then []
    else
      var last := |actions| - 1;
      AllAnswered(actions[..last], log[..last], t) + Answered(actions[last], log[last], t)
  }

  /** Thread `t` is inside Pop. */
  function InPop(s: State, t: nat): nat
  {
    if t < |s.threads| && s.threads[t].Popping() then 1 else 0
  }

  /** Thread by thread, every pop called has been answered, save the one still under way. */
  ghost predicate EachPopAnswered(actions: seq<Action>, log: seq<Event>, s: State)
    requires |log| == |actions|
  {
    forall t: nat :: PopsCalled(actions, t) == |AllAnswered(actions, log, t)| + InPop(s, t)
  }

  lemma StepAnswers(s: State, a: Action, s': State, e: Event, t: nat)
    requires Steps(s, a, s', e)
    ensures InPop(s, t) + (if a == BeginPop(t) then 1 else 0) == |Answered(a, e, t)| + InPop(s', t)
  {
  }

  lemma AnswersSnoc(actions: seq<Action>, log: seq<Event>, s0: State, s: State)
    requires actions != [] && |log| == |actions|
    requires Steps(s0, actions[|actions| - 1], s, log[|log| - 1])
    requires EachPopAnswered(actions[..|actions| - 1], log[..|log| - 1], s0)
    ensures EachPopAnswered(actions, log, s)
  {
    forall t: nat ensures PopsCalled(actions, t) == |AllAnswered(actions, log, t)| + InPop(s, t) {
      StepAnswers(s0, actions[|actions| - 1], s, log[|log| - 1], t);
    }
  }

  /**
    Every run with at most one popper is a run of the mutex-protected stack, each operation
    taking effect at its successful compare-and-exchange or at the load that saw null, and
    every pop returning the value it took there.  The arguments a thread has called Push with
    are the values its pushes have put on the stack, in order and each once, and the argument
    of a push still under way.  Every pop a thread has called has been answered, by a value or
    by nothing, save the one still under way.
   */
  lemma {:induction false} RunRefines(n: nat, poppers: set<nat>, popper: nat,
                                      actions: seq<Action>, s: State, log: seq<Event>)
    returns (chain: seq<Addr>)
    requires poppers <= {popper} && Run(n, poppers, actions, s, log)
    ensures Inv(s, chain, popper) && |s.threads| == n
    ensures Replays(Spec([], None), log, Abstract(s, chain, popper))
    ensures |log| == |actions| && EachLandsOnce(actions, log, s) && EachPopAnswered(actions, log, s)
    decreases |actions|
  {
    if actions == [] {
      InitInv(n, popper);
      chain := [];
      assert Contents(chain, s.heap) == [];
    } else {
      var last := |actions| - 1;
      var s0 :| Run(n, poppers, actions[..last], s0, log[..last]) && Steps(s0, actions[last], s, log[last]);
      var chain0 := RunRefines(n, poppers, popper, actions[..last], s0, log[..last]);
      chain := NextChain(s0, chain0, actions[last], log[last]);
      StepKeepsInv(s0, chain0, popper, actions[last], s, log[last]);
      StepShape(s0, actions[last], s, log[last]);
      StepRefines(s0, chain0, popper, actions[last]);
      ReplaySnoc(Spec([], None), log, Abstract(s0, chain0, popper), Abstract(s, chain, popper));
      LandsSnoc(actions, log, s0, chain0, s);
      AnswersSnoc(actions, log, s0, s);
    }
  }

  // ---------- The heap ----------

  /**
    In every state reached with at most one popper, the allocated nodes are exactly the
    acyclic list from the head and the nodes owned by operations in progress, each by one.
   */
  lemma HeapPartition(n: nat, poppers: set<nat>, actions: seq<Action>, s: State, log: seq<Event>)
    returns (chain: seq<Addr>)
    requires |poppers| <= 1 && Run(n, poppers, actions, s, log)
    ensures IsChain(s.head, s.heap, chain)
    ensures forall a :: a in s.heap <==> a in chain || OwnedBySome(s.threads, a)
    ensures forall a :: a in chain ==> !OwnedBySome(s.threads, a)
    ensures forall t, t' :: 0 <= t < t' < |s.threads| && s.threads[t].Owning() && s.threads[t'].Owning() ==>
              s.threads[t].Owned() != s.threads[t'].Owned()
  {
    var popper := SolePopper(poppers);
    chain := RunRefines(n, poppers, popper, actions, s, log);
  }

  lemma SolePopper(poppers: set<nat>) returns (popper: nat)
    requires |poppers| <= 1
    ensures poppers <= {popper}
  {
    if poppers == {} {
      popper := 0;
    } else {
      popper :| popper in poppers;
      assert |poppers - {popper}| == 0;
    }
  }

  /** With no operation under way the allocated nodes are those of the list. */
  lemma RestHeap(s: State, chain: seq<Addr>, popper: nat)
    requires Inv(s, chain, popper) && forall t :: 0 <= t < |s.threads| ==> s.threads[t].Idle?
    ensures forall a :: a in s.heap ==> a in chain
  {
  }

  lemma ChainWithout(head: Addr, heap: map<Addr, Node>, chain: seq<Addr>, x: Addr)
    requires IsChain(head, heap, chain) && x !in chain
    ensures IsChain(head, heap - {x}, chain)
  {
    forall j | 0 <= j < |chain| ensures chain[j] in heap - {x} {
      assert chain[j] in chain;
    }
  }

  /** The heap is one list from `head`: freeing node after node from there leaves nothing. */
  predicate OneList(head: Addr, heap: map<Addr, Node>, chain: seq<Addr>)
    decreases |chain|
  {
    if chain == [] then head == NULL && heap == map[]
    else head == chain[0] != NULL && head in heap && OneList(heap[head].next, heap - {head}, chain[1..])
  }

  lemma {:induction false} ChainIsOneList(head: Addr, heap: map<Addr, Node>, chain: seq<Addr>)
    requires IsChain(head, heap, chain) && forall a :: a in heap ==> a in chain
    ensures OneList(head, heap, chain)
    decreases |chain|
  {
    if chain != [] {
      ChainTail(head, heap, chain);
      ChainWithout(heap[head].next, heap, chain[1..], head);
      ChainIsOneList(heap[head].next, heap - {head}, chain[1..]);
    }
  }

  /** The loop of the destructor, over a heap that is one list. */
  method FreeList(start: Addr, nodes: map<Addr, Node>, ghost chain: seq<Addr>)
    returns (heap: map<Addr, Node>, freed: seq<Addr>)
    requires OneList(start, nodes, chain)
    ensures heap == map[] && freed == chain
  {
    heap, freed := nodes, [];
    var head := start;
    while head != NULL
      invariant |freed| <= |chain| && freed == chain[..|freed|]
      invariant OneList(head, heap, chain[|freed|..])
      decreases |chain| - |freed|
    {
      assert chain[|freed|..][1..] == chain[|freed| + 1..];
      assert chain[..|freed| + 1] == freed + [head];
      var next := heap[head].next;
      heap := heap - {head};
      freed := freed + [head];
      head := next;
    }
  }

  /** The destructor: it frees the nodes of the list, from the head on, each while it is allocated, and leaves none. */
  method Destroy(s: State, ghost chain: seq<Addr>, ghost popper: nat) returns (heap: map<Addr, Node>, freed: seq<Addr>)
    requires Inv(s, chain, popper)
    requires forall t :: 0 <= t < |s.threads| ==> s.threads[t].Idle?
    ensures heap == map[] && freed == chain
  {
    RestHeap(s, chain, popper);
    ChainIsOneList(s.head, s.heap, chain);
    heap, freed := FreeList(s.head, s.heap, chain);
  }

  // ---------- How many threads may pop ----------

  ghost predicate Reached(n: nat, poppers: set<nat>, s: State)
  {
    exists actions, log :: Run(n, poppers, actions, s, log)
  }

  /** Some run goes on to touch a node that is not allocated, or to free one twice. */
  ghost predicate CanFault(n: nat, poppers: set<nat>)
  {
    exists s, a :: Reached(n, poppers, s) && Enabled(s, a) && Permitted(a, poppers) && Apply(s, a).Fault?
  }

  lemma RunLogs(n: nat, poppers: set<nat>, actions: seq<Action>, s: State, log: seq<Event>)
    requires Run(n, poppers, actions, s, log)
    ensures |log| == |actions|
  {
  }

  lemma ReachedStep(n: nat, poppers: set<nat>, s: State, a: Action, s': State)
    requires Reached(n, poppers, s) && Permitted(a, poppers) && Enabled(s, a)
    requires Apply(s, a).Next? && Apply(s, a).s == s'
    ensures Reached(n, poppers, s')
  {
    var actions, log :| Run(n, poppers, actions, s, log);
    RunLogs(n, poppers, actions, s, log);
    var e := Apply(s, a).e;
    assert (actions + [a])[..|actions|] == actions && (log + [e])[..|log|] == log;
    assert Steps(s, a, s', e);
    assert Run(n, poppers, actions + [a], s', log + [e]);
  }

  /** Thread x has a node, at address 1, ready to push. */
  lemma OneNodeReady(n: nat, poppers: set<nat>, x: nat)
    requires x < n
    ensures Reached(n, poppers, State(NULL, map[1 := Node(7, NULL)], Init(n).threads[x := Linked(1, 7)]))
  {
    var s0 := Init(n);
    var heap: map<Addr, Node> := map[1 := Node(7, NULL)];
    assert Run(n, poppers, [], s0, []);
    var s1 := State(NULL, heap, s0.threads[x := Allocated(1, 7)]);
    ReachedStep(n, poppers, s0, BeginPush(x, 7, 1), s1);
    var s2 := State(NULL, heap, s0.threads[x := Loaded(1, 7, NULL)]);
    ReachedStep(n, poppers, s1, Advance(x, false), s2);
    var s3 := State(NULL, heap, s0.threads[x := Linked(1, 7)]);
    ReachedStep(n, poppers, s2, Advance(x, false), s3);
  }

  lemma OneNodePushed(n: nat, poppers: set<nat>, x: nat)
    requires x < n
    ensures Reached(n, poppers, State(1, map[1 := Node(7, NULL)], Init(n).threads))
  {
    OneNodeReady(n, poppers, x);
    var heap: map<Addr, Node> := map[1 := Node(7, NULL)];
    var s3 := State(NULL, heap, Init(n).threads[x := Linked(1, 7)]);
    assert s3.threads[x := Idle] == Init(n).threads;
    ReachedStep(n, poppers, s3, Advance(x, false), State(1, heap, Init(n).threads));
  }

  /** Thread y unlinks that node while the others stand still. */
  lemma OneNodeUnlinked(n: nat, poppers: set<nat>, threads: seq<Pc>, y: nat)
    requires y in poppers && y < |threads| && threads[y] == Idle
    requires Reached(n, poppers, State(1, map[1 := Node(7, NULL)], threads))
    ensures Reached(n, poppers, State(NULL, map[1 := Node(7, NULL)], threads[y := Detached(1)]))
  {
    var heap: map<Addr, Node> := map[1 := Node(7, NULL)];
    var s1 := State(1, heap, threads[y := Looking(1)]);
    ReachedStep(n, poppers, State(1, heap, threads), BeginPop(y), s1);
    var s2 := State(1, heap, threads[y := Swinging(1, NULL)]);
    ReachedStep(n, poppers, s1, Advance(y, false), s2);
    var s3 := State(NULL, heap, threads[y := Detached(1)]);
    ReachedStep(n, poppers, s2, Advance(y, false), s3);
  }

  /** Thread y frees the node it has unlinked. */
  lemma OneNodeFreed(n: nat, poppers: set<nat>, threads: seq<Pc>, y: nat)
    requires y < |threads| && threads[y] == Idle
    requires Reached(n, poppers, State(NULL, map[1 := Node(7, NULL)], threads[y := Detached(1)]))
    ensures Reached(n, poppers, State(NULL, map[], threads))
  {
    var heap: map<Addr, Node> := map[1 := Node(7, NULL)];
    var s3 := State(NULL, heap, threads[y := Detached(1)]);
    var s4 := State(NULL, heap, threads[y := Deleting(1, 7)]);
    ReachedStep(n, poppers, s3, Advance(y, false), s4);
    var s5 := State(NULL, map[], threads);
    assert s4.threads[y := Idle] == threads && heap - {1} == map[];
    ReachedStep(n, poppers, s4, Advance(y, false), s5);
  }

  /** x starts to pop the only node, y pops and frees it, and x then reads the freed node. */
  lemma TwoPoppersFault(n: nat, poppers: set<nat>, x: nat, y: nat)
    requires x in poppers && y in poppers && x != y && x < n && y < n
    ensures CanFault(n, poppers)
  {
    var s0 := State(1, map[1 := Node(7, NULL)], Init(n).threads);
    OneNodePushed(n, poppers, x);
    var threads := Init(n).threads[x := Looking(1)];
    ReachedStep(n, poppers, s0, BeginPop(x), s0.(threads := threads));
    OneNodeUnlinked(n, poppers, threads, y);
    OneNodeFreed(n, poppers, threads, y);
    var s1 := State(NULL, map[], threads);
    assert Enabled(s1, Advance(x, false)) && Permitted(Advance(x, false), poppers);
  }

  /** Thread y has a node for `value` at `addr`, linked to the head, while the others stand still. */
  lemma LinkedAlone(n: nat, poppers: set<nat>, s: State, y: nat, value: Value, addr: Addr)
    requires Reached(n, poppers, s) && y < |s.threads| && s.threads[y].Idle? && addr != NULL && addr !in s.heap
    ensures Reached(n, poppers, State(s.head, s.heap[addr := Node(value, s.head)], s.threads[y := Linked(addr, value)]))
  {
    var heap := s.heap[addr := Node(value, NULL)];
    var s1 := State(s.head, heap, s.threads[y := Allocated(addr, value)]);
    ReachedStep(n, poppers, s, BeginPush(y, value, addr), s1);
    var s2 := State(s.head, heap, s.threads[y := Loaded(addr, value, s.head)]);
    ReachedStep(n, poppers, s1, Advance(y, false), s2);
    var linked := s.heap[addr := Node(value, s.head)];
    assert heap[addr := Node(value, s.head)] == linked;
    ReachedStep(n, poppers, s2, Advance(y, false), State(s.head, linked, s.threads[y := Linked(addr, value)]));
  }

  /** Thread y pushes `value` at `addr` while the others stand still. */
  lemma PushedAlone(n: nat, poppers: set<nat>, s: State, y: nat, value: Value, addr: Addr)
    requires Reached(n, poppers, s) && y < |s.threads| && s.threads[y].Idle? && addr != NULL && addr !in s.heap
    ensures Reached(n, poppers, State(addr, s.heap[addr := Node(value, s.head)], s.threads))
  {
    LinkedAlone(n, poppers, s, y, value, addr);
    var linked := s.heap[addr := Node(value, s.head)];
    var s1 := State(s.head, linked, s.threads[y := Linked(addr, value)]);
    assert s1.threads[y := Idle] == s.threads;
    ReachedStep(n, poppers, s1, Advance(y, false), State(addr, linked, s.threads));
  }

  /** A node that no operation owns and that is not reached from the head. */
  ghost predicate Lost(s: State, a: Addr)
  {
    a in s.heap && !OwnedBySome(s.threads, a) && forall chain :: IsChain(s.head, s.heap, chain) ==> a !in chain
  }

  /** x is about to exchange the only node, at address 1, which y then pops and frees. */
  lemma StaleExchange(n: nat, poppers: set<nat>, x: nat, y: nat)
    requires x in poppers && y in poppers && x != y && x < n && y < n
    ensures Reached(n, poppers, State(NULL, map[], Init(n).threads[x := Swinging(1, NULL)]))
  {
    var heap: map<Addr, Node> := map[1 := Node(7, NULL)];
    OneNodePushed(n, poppers, x);
    var s1 := State(1, heap, Init(n).threads[x := Looking(1)]);
    ReachedStep(n, poppers, State(1, heap, Init(n).threads), BeginPop(x), s1);
    var threads := Init(n).threads[x := Swinging(1, NULL)];
    ReachedStep(n, poppers, s1, Advance(x, false), State(1, heap, threads));
    OneNodeUnlinked(n, poppers, threads, y);
    OneNodeFreed(n, poppers, threads, y);
  }

  /**
    The ABA problem: with two poppers, and without any access to a freed node, a pop's exchange
    succeeds because the address it saw has been handed out again, and a pushed value is lost.
   */
  lemma TwoPoppersLoseANode(n: nat, poppers: set<nat>, x: nat, y: nat) returns (s: State)
    requires x in poppers && y in poppers && x != y && x < n && y < n
    ensures Reached(n, poppers, s) && Lost(s, 2) && s.heap[2].data == 9
  {
    StaleExchange(n, poppers, x, y);
    var threads := Init(n).threads[x := Swinging(1, NULL)];
    var s1: State := State(NULL, map[], threads);
    PushedAlone(n, poppers, s1, y, 9, 2);
    var s2 := State(2, s1.heap[2 := Node(9, NULL)], threads);
    PushedAlone(n, poppers, s2, y, 10, 1);
    var s3 := State(1, s2.heap[1 := Node(10, 2)], threads);
    s := State(NULL, s3.heap, threads[x := Detached(1)]);
    ReachedStep(n, poppers, s3, Advance(x, false), s);
    assert !OwnedBySome(s.threads, 2);
  }

  /** The stack is safe with any number of pushers exactly when at most one thread pops. */
  lemma SafeIffOnePopper(n: nat, poppers: set<nat>)
    requires forall p :: p in poppers ==> p < n
    ensures !CanFault(n, poppers) <==> |poppers| <= 1
  {
    if |poppers| <= 1 {
      var popper := SolePopper(poppers);
      forall s, a | Reached(n, poppers, s) && Enabled(s, a) && Permitted(a, poppers)
        ensures Apply(s, a).Next?
      {
        var actions, log :| Run(n, poppers, actions, s, log);
        var chain := RunRefines(n, poppers, popper, actions, s, log);
        NoFault(s, chain, popper, a);
      }
    } else {
      var x :| x in poppers;
      assert |poppers - {x}| > 0;
      var y :| y in poppers - {x};
      TwoPoppersFault(n, poppers, x, y);
    }
  }
}
