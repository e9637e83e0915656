/**
  The linked lock-free stack (`LockFreeSPSCStack`) as a machine over an explicit heap: any
  number of threads, one step for each atomic operation or access to a node, and an
  allocator that may hand out again any address that has been freed.  A step that touches
  an address that is not allocated is a fault.
 */
module LinkedStack {

  type Value = int
  type Addr = nat

  const NULL: Addr := 0

  datatype Node = Node(data: Value, next: Addr)

  datatype Pc =
    | Idle
    // Push
    | Allocated(node: Addr, value: Value)               // about to load m_head
    | Loaded(node: Addr, value: Value, seen: Addr)      // about to store newHead->next
    | Linked(node: Addr, value: Value)                  // about to compare and exchange
    // Pop
    | Looking(top: Addr)                                // about to read oldHead->next
    | Swinging(top: Addr, next: Addr)                   // about to compare and exchange
    | Detached(top: Addr)                               // about to move oldHead->data
    | Deleting(top: Addr, value: Value)                 // about to delete oldHead
  {
    predicate Popping()
    {
      Looking? || Swinging? || Detached? || Deleting?
    }

    /** Inside a Push called with `value`, before its compare-and-exchange succeeds. */
    predicate Pushing()
    {
      Allocated? || Loaded? || Linked?
    }

    predicate Owning()
    {
      Allocated? || Loaded? || Linked? || Detached? || Deleting?
    }

    /** The node that only this operation may touch. */
    function Owned(): Addr
      requires Owning()
    {
      match this
      case Allocated(node, _) => node
      case Loaded(node, _, _) => node
      case Linked(node, _) => node
      case Detached(top) => top
      case Deleting(top, _) => top
    }
  }

  datatype State = State(head: Addr, heap: map<Addr, Node>, threads: seq<Pc>)
  {
    function Set(t: nat, pc: Pc): State
      requires t < |threads|
    {
      this.(threads := threads[t := pc])
    }
  }

  datatype Action =
    | BeginPush(t: nat, value: Value, addr: Addr)   // `new Node` at an address the allocator picks
    | BeginPop(t: nat)                              // load of m_head
    | Advance(t: nat, spurious: bool)               // next step of the operation thread t is in

  datatype Event =
    | Silent
    | PushDone(value: Value)
    | PushRetry(spurious: bool)
    | PopEmpty
    | PopRetry(spurious: bool)
    | Unlinked                    // the pop's compare-and-exchange succeeded
    | PopDone(value: Value)

  datatype Outcome = Next(s: State, e: Event) | Fault

  predicate Enabled(s: State, a: Action)
  {
    match a
    case BeginPush(t, _, addr) => t < |s.threads| && s.threads[t].Idle? && addr != NULL && addr !in s.heap
    case BeginPop(t) => t < |s.threads| && s.threads[t].Idle?
    case Advance(t, _) => t < |s.threads| && !s.threads[t].Idle?
  }

  function AdvancePush(s: State, t: nat, spurious: bool): Outcome
    requires t < |s.threads| && !s.threads[t].Idle? && !s.threads[t].Popping()
  {
    match s.threads[t]
    case Allocated(node, value) => Next(s.Set(t, Loaded(node, value, s.head)), Silent)
    case Loaded(node, value, seen) =>
      if node !in s.heap then Fault
      else Next(s.(heap := s.heap[node := s.heap[node].(next := seen)]).Set(t, Linked(node, value)), Silent)
    case Linked(node, _) =>
      if node !in s.heap then Fault
      else if s.heap[node].next == s.head && !spurious then
        Next(s.(head := node).Set(t, Idle), PushDone(s.heap[node].data))
      else
        Next(s.(heap := s.heap[node := s.heap[node].(next := s.head)]), PushRetry(s.heap[node].next == s.head))
  }

  function AdvancePop(s: State, t: nat, spurious: bool): Outcome
    requires t < |s.threads| && s.threads[t].Popping()
  {
    match s.threads[t]
    case Looking(top) =>
      if top !in s.heap then Fault
      else Next(s.Set(t, Swinging(top, s.heap[top].next)), Silent)
    case Swinging(top, next) =>
      if s.head == top && !spurious then
        Next(s.(head := next).Set(t, Detached(top)), Unlinked)
      else if s.head == NULL then
        Next(s.Set(t, Idle), PopEmpty)
      else
        Next(s.Set(t, Looking(s.head)), PopRetry(s.head == top))
    case Detached(top) =>
      if top !in s.heap then Fault
      else Next(s.Set(t, Deleting(top, s.heap[top].data)), Silent)
    case Deleting(top, value) =>
      if top !in s.heap then Fault
      else Next(s.(heap := s.heap - {top}).Set(t, Idle), PopDone(value))
  }

  function Apply(s: State, a: Action): Outcome
    requires Enabled(s, a)
  {
    match a
    case BeginPush(t, value, addr) =>
      Next(s.(heap := s.heap[addr := Node(value, NULL)]).Set(t, Allocated(addr, value)), Silent)
    case BeginPop(t) =>
      if s.head == NULL then Next(s, PopEmpty) else Next(s.Set(t, Looking(s.head)), Silent)
    case Advance(t, spurious) =>
      if s.threads[t].Popping() then AdvancePop(s, t, spurious) else AdvancePush(s, t, spurious)
  }

  predicate Steps(s: State, a: Action, s': State, e: Event)
  {
    Enabled(s, a) && Apply(s, a) == Next(s', e)
  }

  function Init(n: nat): State
  {
    State(NULL, map[], seq(n, _ => Idle))
  }

  /** Only the threads in `poppers` pop; any thread may push. */
  predicate Permitted(a: Action, poppers: set<nat>)
  {
    a.BeginPop? ==> a.t in poppers
  }

  /** Taking `actions` from the fresh stack of `n` threads, in order, ends in `s` and shows `log`. */
  ghost predicate Run(n: nat, poppers: set<nat>, actions: seq<Action>, s: State, log: seq<Event>)
    decreases |actions|
  {
    if actions == [] then
      s == Init(n) && log == []
    else
      var last := |actions| - 1;
      && |log| == |actions|
      && Permitted(actions[last], poppers)
      && exists s0 :: Run(n, poppers, actions[..last], s0, log[..last]) && Steps(s0, actions[last], s, log[last])
  }

  lemma StepShape(s: State, a: Action, s': State, e: Event)
    requires Steps(s, a, s', e)
    ensures a.t < |s'.threads| == |s.threads| && s'.threads == s.threads[a.t := s'.threads[a.t]]
  {
  }

  // ---------- The invariant ----------

  function Successor(chain: seq<Addr>, j: nat): Addr
  {
    if j + 1 < |chain| then chain[j + 1] else NULL
  }

  /** `chain` lists, without repetition, the nodes met on following `next` from the head to null. */
  predicate IsChain(head: Addr, heap: map<Addr, Node>, chain: seq<Addr>)
  {
    && head == (if chain == [] then NULL else chain[0])
    && (forall j :: 0 <= j < |chain| ==> chain[j] != NULL && chain[j] in heap)
    && (forall j, k :: 0 <= j < k < |chain| ==> chain[j] != chain[k])
    && (forall j :: 0 <= j < |chain| ==> heap[chain[j]].next == Successor(chain, j))
  }

  /** The node that thread `t` is working on is, and holds, what its program counter says. */
  predicate ThreadOk(s: State, chain: seq<Addr>, t: nat)
    requires t < |s.threads|
  {
    match s.threads[t]
    case Looking(top) => top in chain
    case Swinging(top, next) => top in chain && top in s.heap && s.heap[top].next == next
    case Deleting(top, value) => top in s.heap && s.heap[top].data == value
    case Allocated(node, value) => node in s.heap && s.heap[node].data == value
    case Loaded(node, value, _) => node in s.heap && s.heap[node].data == value
    case Linked(node, value) => node in s.heap && s.heap[node].data == value
    case _ => true
  }

  /** A node owned by one thread is allocated, not in the chain, and owned by no other thread. */
  predicate Disjoint(s: State, chain: seq<Addr>)
  {
    && NULL !in s.heap
    && (forall t :: 0 <= t < |s.threads| && s.threads[t].Owning() ==>
          s.threads[t].Owned() in s.heap && s.threads[t].Owned() !in chain)
    && (forall t, t' :: 0 <= t < t' < |s.threads| && s.threads[t].Owning() && s.threads[t'].Owning() ==>
          s.threads[t].Owned() != s.threads[t'].Owned())
  }

  predicate OwnedBySome(threads: seq<Pc>, a: Addr)
  {
    exists t :: 0 <= t < |threads| && threads[t].Owning() && threads[t].Owned() == a
  }

  /** Every allocated node is in the chain or owned by a thread. */
  predicate Covered(s: State, chain: seq<Addr>)
  {
    forall a :: a in s.heap ==> a in chain || OwnedBySome(s.threads, a)
  }

  /** Nobody but thread `popper` is inside Pop. */
  predicate OnePopper(s: State, popper: nat)
  {
    forall t :: 0 <= t < |s.threads| && s.threads[t].Popping() ==> t == popper
  }

  predicate Inv(s: State, chain: seq<Addr>, popper: nat)
  {
    && IsChain(s.head, s.heap, chain)
    && Disjoint(s, chain)
    && Covered(s, chain)
    && OnePopper(s, popper)
    && forall t :: 0 <= t < |s.threads| ==> ThreadOk(s, chain, t)
  }

  /** The chain after a step. */
  function NextChain(s: State, chain: seq<Addr>, a: Action, e: Event): seq<Addr>
    requires Enabled(s, a)
  {
    match e
    case PushDone(_) => if s.threads[a.t].Linked? then [s.threads[a.t].node] + chain else chain
    case Unlinked => if chain != [] then chain[1..] else chain
    case _ => chain
  }

  lemma InitInv(n: nat, popper: nat)
    ensures Inv(Init(n), [], popper)
  {
  }

  lemma NoFault(s: State, chain: seq<Addr>, popper: nat, a: Action)
    requires Inv(s, chain, popper) && Enabled(s, a)
    ensures Apply(s, a).Next?
  {
    if a.Advance? {
      assert ThreadOk(s, chain, a.t);
    }
  }

  lemma AllocationCovered(s: State, chain: seq<Addr>, a: Action)
    requires Covered(s, chain) && Enabled(s, a) && a.BeginPush?
    ensures Covered(Apply(s, a).s, chain)
  {
    var s' := Apply(s, a).s;
    forall b | b in s'.heap ensures b in chain || OwnedBySome(s'.threads, b) {
      if b == a.addr {
        assert s'.threads[a.t].Owned() == b;
      } else if b !in chain {
        var t :| 0 <= t < |s.threads| && s.threads[t].Owning() && s.threads[t].Owned() == b;
        assert s'.threads[t].Owned() == b;
      }
    }
  }

  lemma AllocationDisjoint(s: State, chain: seq<Addr>, a: Action)
    requires Disjoint(s, chain) && Enabled(s, a) && a.BeginPush?
    requires forall j :: 0 <= j < |chain| ==> chain[j] in s.heap
    ensures Disjoint(Apply(s, a).s, chain)
  {
  }

  lemma BeginPushKeepsInv(s: State, chain: seq<Addr>, popper: nat, a: Action)
    requires Inv(s, chain, popper) && Enabled(s, a) && a.BeginPush?
    ensures Inv(Apply(s, a).s, chain, popper)
  {
    var s' := Apply(s, a).s;
    AllocationCovered(s, chain, a);
    AllocationDisjoint(s, chain, a);
    forall t | 0 <= t < |s.threads| ensures ThreadOk(s', chain, t) {
      assert ThreadOk(s, chain, t);
    }
  }

  /** What `Covered` needs of a step that allocates nothing. */
  lemma CoverKept(s: State, s': State, chain: seq<Addr>, chain': seq<Addr>, t0: nat)
    requires Covered(s, chain) && t0 < |s.threads| == |s'.threads|
    requires s'.threads == s.threads[t0 := s'.threads[t0]]
    requires s'.heap.Keys <= s.heap.Keys
    requires forall b :: b in chain && b in s'.heap ==> b in chain' || OwnedBySome(s'.threads, b)
    requires s.threads[t0].Owning() ==>
               var b := s.threads[t0].Owned(); b !in s'.heap || b in chain' || OwnedBySome(s'.threads, b)
    ensures Covered(s', chain')
  {
    forall b | b in s'.heap ensures b in chain' || OwnedBySome(s'.threads, b) {
      assert b in s.heap;
      if b !in chain {
        var t :| 0 <= t < |s.threads| && s.threads[t].Owning() && s.threads[t].Owned() == b;
        if t != t0 {
          assert s'.threads[t].Owned() == b;
        }
      }
    }
  }

  /** A push step before the successful compare-and-exchange writes the link of its own node only. */
  lemma PrivateOutcome(s: State, chain: seq<Addr>, t: nat, spurious: bool, s': State, e: Event)
    requires t < |s.threads| && !s.threads[t].Idle? && !s.threads[t].Popping() && ThreadOk(s, chain, t)
    requires AdvancePush(s, t, spurious) == Next(s', e) && !e.PushDone?
    ensures s.threads[t].Owning() && s.threads[t].Owned() in s.heap
    ensures
      var node := s.threads[t].Owned();
      && node in s'.heap
      && s' == s.(heap := s.heap[node := s.heap[node].(next := s'.heap[node].next)]).Set(t, s'.threads[t])
    ensures s'.threads[t].Owning() && s'.threads[t].Owned() == s.threads[t].Owned()
    ensures !s'.threads[t].Popping() && ThreadOk(s', chain, t) && !e.Unlinked?
  {
    var node := s.threads[t].Owned();
    assert s.heap[node := s.heap[node]] == s.heap;
  }

  lemma PrivateStepKeepsInv(s: State, chain: seq<Addr>, popper: nat, t: nat, spurious: bool, s': State, e: Event)
    requires Inv(s, chain, popper) && t < |s.threads| && !s.threads[t].Idle? && !s.threads[t].Popping()
    requires AdvancePush(s, t, spurious) == Next(s', e) && !e.PushDone?
    ensures !e.Unlinked? && Inv(s', chain, popper)
  {
    assert ThreadOk(s, chain, t);
    PrivateOutcome(s, chain, t, spurious, s', e);
    CoverKept(s, s', chain, chain, t);
    forall u | 0 <= u < |s.threads| ensures ThreadOk(s', chain, u) {
      assert ThreadOk(s, chain, u);
    }
  }

  lemma ChainPush(head: Addr, heap: map<Addr, Node>, chain: seq<Addr>, node: Addr)
    requires IsChain(head, heap, chain)
    requires node != NULL && node in heap && node !in chain && heap[node].next == head
    ensures IsChain(node, heap, [node] + chain)
  {
    var longer := [node] + chain;
    forall j | 0 <= j < |longer| ensures longer[j] in heap && heap[longer[j]].next == Successor(longer, j) {
      if j > 0 {
        assert longer[j] == chain[j - 1] && heap[chain[j - 1]].next == Successor(chain, j - 1);
      }
    }
  }

  lemma PushDoneDisjoint(s: State, chain: seq<Addr>, t: nat)
    requires Disjoint(s, chain) && t < |s.threads| && s.threads[t].Linked?
    ensures Disjoint(s.(head := s.threads[t].node).Set(t, Idle), [s.threads[t].node] + chain)
  {
    assert s.threads[t].Owned() == s.threads[t].node;
  }

  lemma PushDoneKeepsInv(s: State, chain: seq<Addr>, popper: nat, t: nat)
    requires Inv(s, chain, popper) && t < |s.threads| && s.threads[t].Linked?
    requires s.threads[t].node in s.heap && s.heap[s.threads[t].node].next == s.head
    ensures Inv(AdvancePush(s, t, false).s, [s.threads[t].node] + chain, popper)
  {
    var s' := AdvancePush(s, t, false).s;
    var node := s.threads[t].node;
    var chain' := [node] + chain;
    assert s.threads[t].Owned() == node && node !in chain;
    ChainPush(s.head, s.heap, chain, node);
    PushDoneDisjoint(s, chain, t);
    CoverKept(s, s', chain, chain', t);
    forall u | 0 <= u < |s.threads| ensures ThreadOk(s', chain', u) {
      assert ThreadOk(s, chain, u);
    }
  }

  lemma ChainTail(head: Addr, heap: map<Addr, Node>, chain: seq<Addr>)
    requires IsChain(head, heap, chain) && chain != []
    ensures IsChain(heap[head].next, heap, chain[1..])
    ensures head !in chain[1..]
    ensures forall b :: b in chain ==> b == head || b in chain[1..]
  {
    var tail := chain[1..];
    assert heap[chain[0]].next == Successor(chain, 0);
    forall j | 0 <= j < |tail|
      ensures tail[j] != head && tail[j] in heap && heap[tail[j]].next == Successor(tail, j)
    {
      assert tail[j] == chain[j + 1];
      assert heap[chain[j + 1]].next == Successor(chain, j + 1);
    }
    forall b | b in chain ensures b == head || b in chain[1..] {
      var j :| 0 <= j < |chain| && chain[j] == b;
      if j > 0 {
        assert tail[j - 1] == b;
      }
    }
  }

  /** The popper's saved head is still linked with the successor it read, so no ABA can mislead it. */
  lemma UnlinkTakesHead(s: State, chain: seq<Addr>, popper: nat, t: nat)
    requires Inv(s, chain, popper) && t < |s.threads| && s.threads[t].Swinging? && s.head == s.threads[t].top
    ensures chain != [] && chain[0] == s.threads[t].top
    ensures s.head in s.heap && s.heap[s.head].next == s.threads[t].next
  {
    assert ThreadOk(s, chain, t);
  }

  /** What the successful compare-and-exchange of a pop does. */
  lemma UnlinkOutcome(s: State, t: nat, spurious: bool, s': State)
    requires t < |s.threads| && s.threads[t].Popping() && AdvancePop(s, t, spurious) == Next(s', Unlinked)
    ensures s.threads[t].Swinging? && s.head == s.threads[t].top
    ensures s' == s.(head := s.threads[t].next).Set(t, Detached(s.head))
  {
  }

  lemma UnlinkDisjoint(s: State, chain: seq<Addr>, t: nat, s': State)
    requires Disjoint(s, chain) && chain != [] && chain[0] in s.heap && chain[0] !in chain[1..]
    requires t < |s.threads| && !s.threads[t].Owning()
    requires s'.heap == s.heap && s'.threads == s.threads[t := Detached(chain[0])]
    ensures Disjoint(s', chain[1..])
  {
    forall u | 0 <= u < |s'.threads| && s'.threads[u].Owning()
      ensures s'.threads[u].Owned() in s'.heap && s'.threads[u].Owned() !in chain[1..]
      ensures u != t ==> s'.threads[u].Owned() != chain[0]
    {
      if u != t {
        assert s.threads[u].Owned() !in chain;
      }
    }
  }

  lemma UnlinkKeepsInv(s: State, chain: seq<Addr>, popper: nat, t: nat, spurious: bool, s': State)
    requires Inv(s, chain, popper) && t < |s.threads| && s.threads[t].Popping()
    requires AdvancePop(s, t, spurious) == Next(s', Unlinked)
    ensures chain != [] && Inv(s', chain[1..], popper)
  {
    UnlinkOutcome(s, t, spurious, s');
    UnlinkTakesHead(s, chain, popper, t);
    ChainTail(s.head, s.heap, chain);
    UnlinkDisjoint(s, chain, t, s');
    assert s'.threads[t].Owned() == s.head;
    assert OwnedBySome(s'.threads, s.head);
    CoverKept(s, s', chain, chain[1..], t);
    forall u | 0 <= u < |s.threads| ensures ThreadOk(s', chain[1..], u) {
      assert ThreadOk(s, chain, u);
      assert u != t ==> !s.threads[u].Popping();
    }
  }

  /** What a pop step that neither unlinks nor frees does: it moves its own program counter. */
  lemma ReadOutcome(s: State, chain: seq<Addr>, t: nat, spurious: bool, s': State, e: Event)
    requires IsChain(s.head, s.heap, chain)
    requires t < |s.threads| && s.threads[t].Popping() && !s.threads[t].Deleting? && ThreadOk(s, chain, t)
    requires AdvancePop(s, t, spurious) == Next(s', e) && !e.Unlinked?
    ensures s' == s.Set(t, s'.threads[t]) && ThreadOk(s', chain, t) && !e.PushDone?
    ensures s'.threads[t].Popping() || s'.threads[t].Idle?
    ensures s'.threads[t].Owning() <==> s.threads[t].Owning()
    ensures s.threads[t].Owning() ==> s'.threads[t].Owned() == s.threads[t].Owned()
  {
  }

  /** Pop steps that neither unlink nor free. */
  lemma ReadStepKeepsInv(s: State, chain: seq<Addr>, popper: nat, t: nat, spurious: bool, s': State, e: Event)
    requires Inv(s, chain, popper) && t < |s.threads| && s.threads[t].Popping() && !s.threads[t].Deleting?
    requires AdvancePop(s, t, spurious) == Next(s', e) && !e.Unlinked?
    ensures !e.PushDone? && Inv(s', chain, popper)
  {
    assert ThreadOk(s, chain, t);
    ReadOutcome(s, chain, t, spurious, s', e);
    CoverKept(s, s', chain, chain, t);
    forall u | 0 <= u < |s.threads| ensures ThreadOk(s', chain, u) {
      assert ThreadOk(s, chain, u);
    }
  }

  lemma FreeOutcome(s: State, t: nat, spurious: bool, s': State, e: Event)
    requires t < |s.threads| && s.threads[t].Deleting? && AdvancePop(s, t, spurious) == Next(s', e)
    ensures s' == s.(heap := s.heap - {s.threads[t].top}).Set(t, Idle) && e.PopDone?
  {
  }

  lemma FreeKeepsInv(s: State, chain: seq<Addr>, popper: nat, t: nat, spurious: bool, s': State, e: Event)
    requires Inv(s, chain, popper) && t < |s.threads| && s.threads[t].Deleting?
    requires AdvancePop(s, t, spurious) == Next(s', e)
    ensures e.PopDone? && Inv(s', chain, popper)
  {
    FreeOutcome(s, t, spurious, s', e);
    assert s.threads[t].Owned() == s.threads[t].top;
    CoverKept(s, s', chain, chain, t);
    forall u | 0 <= u < |s.threads| ensures ThreadOk(s', chain, u) {
      assert ThreadOk(s, chain, u);
    }
  }

  lemma BeginPopKeepsInv(s: State, chain: seq<Addr>, popper: nat)
    requires Inv(s, chain, popper) && Enabled(s, BeginPop(popper))
    ensures Inv(Apply(s, BeginPop(popper)).s, chain, popper)
  {
    var s' := Apply(s, BeginPop(popper)).s;
    CoverKept(s, s', chain, chain, popper);
    forall u | 0 <= u < |s.threads| ensures ThreadOk(s', chain, u) {
      assert ThreadOk(s, chain, u);
    }
  }

  lemma PushStepKeepsInv(s: State, chain: seq<Addr>, popper: nat, a: Action, s': State, e: Event)
    requires Inv(s, chain, popper) && Steps(s, a, s', e) && a.Advance? && !s.threads[a.t].Popping()
    ensures Inv(s', NextChain(s, chain, a, e), popper)
  {
    if e.PushDone? {
      PushDoneKeepsInv(s, chain, popper, a.t);
      assert s' == AdvancePush(s, a.t, false).s;
    } else {
      assert AdvancePush(s, a.t, a.spurious) == Next(s', e);
      PrivateStepKeepsInv(s, chain, popper, a.t, a.spurious, s', e);
      assert NextChain(s, chain, a, e) == chain;
    }
  }

  lemma PopStepKeepsInv(s: State, chain: seq<Addr>, popper: nat, a: Action, s': State, e: Event)
    requires Inv(s, chain, popper) && Steps(s, a, s', e) && a.Advance? && s.threads[a.t].Popping()
    ensures Inv(s', NextChain(s, chain, a, e), popper)
  {
    assert AdvancePop(s, a.t, a.spurious) == Next(s', e);
    if e.Unlinked? {
      UnlinkKeepsInv(s, chain, popper, a.t, a.spurious, s');
      assert NextChain(s, chain, a, e) == chain[1..];
    } else if s.threads[a.t].Deleting? {
      FreeKeepsInv(s, chain, popper, a.t, a.spurious, s', e);
      assert NextChain(s, chain, a, e) == chain;
    } else {
      ReadStepKeepsInv(s, chain, popper, a.t, a.spurious, s', e);
      assert NextChain(s, chain, a, e) == chain;
    }
  }

  lemma StepKeepsInv(s: State, chain: seq<Addr>, popper: nat, a: Action, s': State, e: Event)
    requires Inv(s, chain, popper) && Steps(s, a, s', e) && (a.BeginPop? ==> a.t == popper)
    ensures Inv(s', NextChain(s, chain, a, e), popper)
  {
    match a
    case BeginPush(_, _, _) => BeginPushKeepsInv(s, chain, popper, a);
    case BeginPop(_) => BeginPopKeepsInv(s, chain, popper);
    case Advance(t, spurious) =>
      if s.threads[t].Popping() {
        PopStepKeepsInv(s, chain, popper, a, s', e);
      } else {
        PushStepKeepsInv(s, chain, popper, a, s', e);
      }
  }
}
