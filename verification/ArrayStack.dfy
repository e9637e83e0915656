/**
  The array stack with a CAS on its index (`BufferedLockFreeSPSCStack`), for any number of
  pushers and poppers.  The index is published before the cell is stored or read, so the
  machine keeps the two apart.
 */
module ArrayStack {
  type Value = int

  datatype Pc =
    | Idle
    | PushLoading(value: Value)
    | PushSwapping(value: Value, top: nat)
    | Storing(value: Value, cell: nat)       // index published, about to store the cell
    | PopLoading
    | PopSwapping(top: nat)
    | Reading(cell: nat)                     // index published, about to read the cell
  {
    predicate Pending() { Storing? || Reading? }
  }

  datatype State = State(
    head: nat,
    buffer: seq<Value>,
    threads: seq<Pc>,
    offered: set<Value>,     // every value ever given to Push
    pushes: nat,             // successful CASes of Push
    pops: nat)               // successful CASes of Pop
  {
    function Set(t: nat, pc: Pc): State
      requires t < |threads|
    {
      this.(threads := threads[t := pc])
    }
  }

  datatype Action =
    | BeginPush(t: nat, value: Value)
    | BeginPop(t: nat)
    | Advance(t: nat, spurious: bool)

  datatype Event =
    | Silent
    | PushFull(value: Value)
    | PushWon(value: Value)          // the CAS of a push succeeded
    | PushDone(value: Value)         // the value is stored and the push returns true
    | PopEmpty
    | PopWon                         // the CAS of a pop succeeded
    | PopDone(value: Value)

  datatype Outcome = Next(s: State, e: Event) | OutOfRange

  predicate Enabled(s: State, a: Action)
  {
    match a
    case BeginPush(t, _) => t < |s.threads| && s.threads[t].Idle?
    case BeginPop(t) => t < |s.threads| && s.threads[t].Idle?
    case Advance(t, _) => t < |s.threads| && !s.threads[t].Idle?
  }

  function Apply(s: State, a: Action): Outcome
    requires Enabled(s, a)
  {
    match a
    case BeginPush(t, value) => Next(s.(offered := s.offered + {value}).Set(t, PushLoading(value)), Silent)
    case BeginPop(t) => Next(s.Set(t, PopLoading), Silent)
    case Advance(t, spurious) =>
      match s.threads[t]
      case PushLoading(value) =>
        if s.head == |s.buffer| then Next(s.Set(t, Idle), PushFull(value))
        else Next(s.Set(t, PushSwapping(value, s.head)), Silent)
      case PushSwapping(value, top) =>
        if s.head == top && !spurious then
          Next(s.(head := top + 1, pushes := s.pushes + 1).Set(t, Storing(value, top)), PushWon(value))
        else
          Next(s.Set(t, PushLoading(value)), Silent)
      case Storing(value, cell) =>
        if cell < |s.buffer| then Next(s.(buffer := s.buffer[cell := value]).Set(t, Idle), PushDone(value))
        else OutOfRange
      case PopLoading =>
        if s.head == 0 then Next(s.Set(t, Idle), PopEmpty)
        else Next(s.Set(t, PopSwapping(s.head)), Silent)
      case PopSwapping(top) =>
        if s.head == top && top > 0 && !spurious then
          Next(s.(head := top - 1, pops := s.pops + 1).Set(t, Reading(top - 1)), PopWon)
        else
          Next(s.Set(t, PopLoading), Silent)
      case Reading(cell) =>
        if cell < |s.buffer| then Next(s.Set(t, Idle), PopDone(s.buffer[cell]))
        else OutOfRange
  }

  function Init(capacity: nat, threads: nat): State
  {
    State(0, seq(capacity, _ => 0), seq(threads, _ => Idle), {}, 0, 0)
  }

  predicate Steps(s: State, a: Action, s': State, e: Event)
  {
    Enabled(s, a) && Apply(s, a) == Next(s', e)
  }

  /** Taking `actions` from `s0`, in order, ends in `s1` and shows `log`. */
  ghost predicate Run(s0: State, actions: seq<Action>, s1: State, log: seq<Event>)
    decreases |actions|
  {
    if actions == [] then
      s1 == s0 && log == []
    else
      var last := |actions| - 1;
      && |log| == |actions|
      && exists s :: Run(s0, actions[..last], s, log[..last]) && Steps(s, actions[last], s1, log[last])
  }

  lemma RunSnoc(s0: State, actions: seq<Action>, s: State, log: seq<Event>, a: Action, s': State, e: Event)
    requires Run(s0, actions, s, log) && |log| == |actions| && Steps(s, a, s', e)
    ensures Run(s0, actions + [a], s', log + [e])
  {
    assert (actions + [a])[..|actions|] == actions && (log + [e])[..|log|] == log;
  }

  lemma StepShape(s: State, a: Action, s': State, e: Event)
    requires Steps(s, a, s', e)
    ensures a.t < |s'.threads| == |s.threads| && s'.threads == s.threads[a.t := s'.threads[a.t]]
    ensures |s'.buffer| == |s.buffer|
  {
  }

  // ---------- All interleavings ----------

  predicate PcOk(pc: Pc, capacity: nat, offered: set<Value>)
  {
    match pc
    case PushLoading(v) => v in offered
    case PushSwapping(v, top) => v in offered && top < capacity
    case Storing(v, cell) => v in offered && cell < capacity
    case PopSwapping(top) => 0 < top <= capacity
    case Reading(cell) => cell < capacity
    case _ => true
  }

  /** Bounds, count and provenance: what holds however operations overlap. */
  predicate Bounded(s: State)
  {
    && s.head <= |s.buffer|
    && s.head == s.pushes - s.pops
    && (forall c :: 0 <= c < |s.buffer| ==> s.buffer[c] == 0 || s.buffer[c] in s.offered)
    && (forall t :: 0 <= t < |s.threads| ==> PcOk(s.threads[t], |s.buffer|, s.offered))
  }

  lemma StepKeepsBounded(s: State, a: Action)
    requires Bounded(s) && Enabled(s, a)
    ensures Apply(s, a).Next? && Bounded(Apply(s, a).s)
    ensures Apply(s, a).e.PopDone? ==> Apply(s, a).e.value == 0 || Apply(s, a).e.value in s.offered
  {
    assert PcOk(s.threads[a.t], |s.buffer|, s.offered);
    var s' := Apply(s, a).s;
    forall t | 0 <= t < |s'.threads| ensures PcOk(s'.threads[t], |s'.buffer|, s'.offered) {
      assert PcOk(s.threads[t], |s.buffer|, s.offered);
    }
  }

  /** Every index used is in range, and every cell holds the initial value or one offered to Push. */
  lemma {:induction false} AlwaysBounded(capacity: nat, threads: nat, actions: seq<Action>, s: State,
                                         log: seq<Event>)
    requires Run(Init(capacity, threads), actions, s, log)
    ensures Bounded(s) && |s.buffer| == capacity
    ensures forall a :: Enabled(s, a) ==> Apply(s, a).Next?
    decreases |actions|
  {
    if actions != [] {
      var last := |actions| - 1;
      var s0 :| Run(Init(capacity, threads), actions[..last], s0, log[..last])
        && Steps(s0, actions[last], s, log[last]);
      AlwaysBounded(capacity, threads, actions[..last], s0, log[..last]);
      StepKeepsBounded(s0, actions[last]);
    }
    forall a | Enabled(s, a) ensures Apply(s, a).Next? {
      StepKeepsBounded(s, a);
    }
  }

  // ---------- What is pushed ----------

  /** The argument of the last Push that thread `t` has started, if any. */
  function LastPush(actions: seq<Action>, t: nat): seq<Value>
  {
    if actions == [] then []
    else
      var a := actions[|actions| - 1];
      if a.BeginPush? && a.t == t then [a.value] else LastPush(actions[..|actions| - 1], t)
  }

  /** The argument of the Push that an operation belongs to. */
  function Argument(pc: Pc): seq<Value>
  {
    if pc.PushLoading? || pc.PushSwapping? || pc.Storing? then [pc.value] else []
  }

  lemma StepKeepsArgument(s: State, a: Action, s': State, e: Event, t: nat)
    requires Steps(s, a, s', e) && t < |s.threads| && t < |s'.threads| && Argument(s'.threads[t]) != []
    ensures if a.BeginPush? && a.t == t then Argument(s'.threads[t]) == [a.value]
            else Argument(s'.threads[t]) == Argument(s.threads[t])
  {
  }

  lemma {:induction false} CarriesItsArgument(capacity: nat, threads: nat, actions: seq<Action>, s: State,
                                              log: seq<Event>, t: nat)
    requires Run(Init(capacity, threads), actions, s, log) && t < threads
    ensures |s.threads| == threads
    ensures Argument(s.threads[t]) != [] ==> Argument(s.threads[t]) == LastPush(actions, t)
    decreases |actions|
  {
    if actions != [] {
      var last := |actions| - 1;
      var s0 :| Run(Init(capacity, threads), actions[..last], s0, log[..last])
        && Steps(s0, actions[last], s, log[last]);
      CarriesItsArgument(capacity, threads, actions[..last], s0, log[..last], t);
      StepShape(s0, actions[last], s, log[last]);
      if Argument(s.threads[t]) != [] {
        StepKeepsArgument(s0, actions[last], s, log[last], t);
      }
    }
  }

  lemma WinsWithArgument(s: State, a: Action, s': State, e: Event)
    requires Steps(s, a, s', e) && e.PushWon?
    ensures Argument(s.threads[a.t]) == [e.value]
  {
  }

  /** A push carries its own argument from its start to its store, and wins its CAS with it. */
  lemma PushesItsArgument(capacity: nat, threads: nat, actions: seq<Action>, s: State, log: seq<Event>, t: nat)
    requires Run(Init(capacity, threads), actions, s, log) && t < threads
    ensures |s.threads| == threads
    ensures Argument(s.threads[t]) != [] ==> Argument(s.threads[t]) == LastPush(actions, t)
    ensures forall a, s', e :: Steps(s, a, s', e) && e.PushWon? && a.t == t ==> [e.value] == LastPush(actions, t)
  {
    CarriesItsArgument(capacity, threads, actions, s, log, t);
    forall a, s', e | Steps(s, a, s', e) && e.PushWon? && a.t == t ensures [e.value] == LastPush(actions, t) {
      WinsWithArgument(s, a, s', e);
    }
  }

  // ---------- One thread at a time ----------

  /** The stack as an object, used by one thread at a time: the CAS then succeeds at once. */
  class BoundedStack {
    var head: nat
    const buffer: array<Value>

    ghost predicate Valid()
      reads this
    {
      head <= buffer.Length
    }

    ghost function Contents(): seq<Value>
      requires Valid()
      reads this, buffer
    {
      buffer[..head]
    }

    constructor (capacity: nat)
      ensures Valid() && fresh(buffer) && buffer.Length == capacity && Contents() == []
    {
      buffer := new Value[capacity](_ => 0);
      head := 0;
    }

    method Push(value: Value) returns (ok: bool)
      requires Valid()
      modifies this, buffer
      ensures Valid()
      ensures ok <==> |old(Contents())| < buffer.Length
      ensures Contents() == if ok then old(Contents()) + [value] else old(Contents())
    {
      var top := head;
      if top == buffer.Length {
        return false;
      }
      head := top + 1;
      buffer[top] := value;
      return true;
    }

    method Pop() returns (found: bool, value: Value)
      requires Valid()
      modifies this
      ensures Valid()
      ensures found <==> old(Contents()) != []
      ensures found ==> old(Contents()) == Contents() + [value]
      ensures !found ==> Contents() == old(Contents())
    {
      value := 0;
      var top := head;
      if top == 0 {
        return false, value;
      }
      head := top - 1;
      value := buffer[top - 1];
      return true, value;
    }
  }
}
