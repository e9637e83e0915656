/**
  Two runs of the array stack with one pusher and one popper, at any capacity, in which a pop
  does not return the value it took.
 */
module ArrayStackOverlap {
  import opened ArrayStack
  import opened ArrayStackReturns

  /** The popper is thread 1: what the stack is and what that thread has taken and returned so far. */
  datatype Account = Account(stack: seq<Value>, taken: seq<Value>, returned: seq<Value>)
  {
    function Add(a: Action, e: Event): Account
    {
      Account(StackAfter(stack, e), taken + Takes(stack, a, e, 1), returned + Returns(a, e, 1))
    }
  }

  ghost predicate Accounts(actions: seq<Action>, log: seq<Event>, c: Account)
  {
    |log| == |actions|
    && StackOf(log) == c.stack && AllTaken(actions, log, 1) == c.taken && AllReturned(actions, log, 1) == c.returned
  }

  ghost predicate RunWith(capacity: nat, actions: seq<Action>, s: State, log: seq<Event>, c: Account)
  {
    Run(Init(capacity, 2), actions, s, log) && Accounts(actions, log, c)
  }

  lemma AccountsSnoc(actions: seq<Action>, log: seq<Event>, c: Account, a: Action, e: Event)
    requires Accounts(actions, log, c)
    ensures Accounts(actions + [a], log + [e], c.Add(a, e))
  {
    assert (actions + [a])[..|actions|] == actions && (log + [e])[..|log|] == log;
  }

  lemma RunWithSnoc(capacity: nat, actions: seq<Action>, s: State, log: seq<Event>, c: Account,
                    a: Action, s': State, e: Event)
    requires RunWith(capacity, actions, s, log, c) && Steps(s, a, s', e)
    ensures RunWith(capacity, actions + [a], s', log + [e], c.Add(a, e))
  {
    RunSnoc(Init(capacity, 2), actions, s, log, a, s', e);
    AccountsSnoc(actions, log, c, a, e);
  }

  lemma ThreeSteps(capacity: nat, actions: seq<Action>, s: State, log: seq<Event>, c: Account,
                   a: Action, s1: State, b: Action, s2: State, s3: State, e: Event)
    requires RunWith(capacity, actions, s, log, c)
    requires Steps(s, a, s1, Silent) && Steps(s1, b, s2, Silent) && Steps(s2, b, s3, e)
    ensures RunWith(capacity, actions + [a] + [b] + [b], s3, log + [Silent] + [Silent] + [e], c.Add(b, e))
  {
    RunWithSnoc(capacity, actions, s, log, c, a, s1, Silent);
    assert c.Add(a, Silent) == c && c.Add(b, Silent) == c;
    RunWithSnoc(capacity, actions + [a], s1, log + [Silent], c, b, s2, Silent);
    RunWithSnoc(capacity, actions + [a] + [b], s2, log + [Silent] + [Silent], c, b, s3, e);
  }

  lemma PushWins(s: State, t: nat, value: Value) returns (s1: State, s2: State, s3: State)
    requires t < |s.threads| && s.threads[t].Idle? && s.head < |s.buffer|
    ensures Steps(s, BeginPush(t, value), s1, Silent) && Steps(s1, Advance(t, false), s2, Silent)
    ensures Steps(s2, Advance(t, false), s3, PushWon(value))
    ensures s3 == s.(head := s.head + 1, pushes := s.pushes + 1, offered := s.offered + {value})
                   .Set(t, Storing(value, s.head))
  {
    s1 := Apply(s, BeginPush(t, value)).s;
    s2 := Apply(s1, Advance(t, false)).s;
    s3 := Apply(s2, Advance(t, false)).s;
  }

  lemma PopWins(s: State, t: nat) returns (s1: State, s2: State, s3: State)
    requires t < |s.threads| && s.threads[t].Idle? && s.head > 0
    ensures Steps(s, BeginPop(t), s1, Silent) && Steps(s1, Advance(t, false), s2, Silent)
    ensures Steps(s2, Advance(t, false), s3, PopWon)
    ensures s3 == s.(head := s.head - 1, pops := s.pops + 1).Set(t, Reading(s.head - 1))
  {
    s1 := Apply(s, BeginPop(t)).s;
    s2 := Apply(s1, Advance(t, false)).s;
    s3 := Apply(s2, Advance(t, false)).s;
  }

  /** The pusher starts a push of `value` and wins its CAS while the popper stands still. */
  lemma WinPush(capacity: nat, actions: seq<Action>, s: State, log: seq<Event>, c: Account, value: Value, s': State)
    returns (actions': seq<Action>, log': seq<Event>)
    requires RunWith(capacity, actions, s, log, c) && 0 < |s.threads| && s.threads[0].Idle? && s.head < |s.buffer|
    requires s' == s.(head := s.head + 1, pushes := s.pushes + 1, offered := s.offered + {value})
                    .Set(0, Storing(value, s.head))
    ensures RunWith(capacity, actions', s', log', c.Add(Advance(0, false), PushWon(value)))
  {
    var s1, s2, s3 := PushWins(s, 0, value);
    var a, b, e := BeginPush(0, value), Advance(0, false), PushWon(value);
    ThreeSteps(capacity, actions, s, log, c, a, s1, b, s2, s', e);
    actions', log' := actions + [a] + [b] + [b], log + [Silent] + [Silent] + [e];
  }

  /** The popper starts a pop and wins its CAS while the pusher stands still. */
  lemma WinPop(capacity: nat, actions: seq<Action>, s: State, log: seq<Event>, c: Account, s': State)
    returns (actions': seq<Action>, log': seq<Event>)
    requires RunWith(capacity, actions, s, log, c) && 1 < |s.threads| && s.threads[1].Idle? && s.head > 0
    requires s' == s.(head := s.head - 1, pops := s.pops + 1).Set(1, Reading(s.head - 1))
    ensures RunWith(capacity, actions', s', log', c.Add(Advance(1, false), PopWon))
  {
    var s1, s2, s3 := PopWins(s, 1);
    var a, b := BeginPop(1), Advance(1, false);
    ThreeSteps(capacity, actions, s, log, c, a, s1, b, s2, s', PopWon);
    actions', log' := actions + [a] + [b] + [b], log + [Silent] + [Silent] + [PopWon];
  }

  /** A state of the two threads in which only the first cell has ever been touched. */
  function Stage(capacity: nat, head: nat, cell: Value, pusher: Pc, popper: Pc,
                 offered: set<Value>, pushes: nat, pops: nat): State
    requires capacity > 0
  {
    State(head, seq(capacity, _ => 0)[0 := cell], [pusher, popper], offered, pushes, pops)
  }

  // The pusher wins the first cell; from there the two runs part.

  lemma FirstWon(capacity: nat, value: Value) returns (actions: seq<Action>, log: seq<Event>)
    requires capacity > 0
    ensures RunWith(capacity, actions, Stage(capacity, 1, 0, Storing(value, 0), Idle, {value}, 1, 0), log,
                    Account([value], [], []))
  {
    var s, c := Init(capacity, 2), Account([], [], []);
    assert RunWith(capacity, [], s, [], c);
    var s' := Stage(capacity, 1, 0, Storing(value, 0), Idle, {value}, 1, 0);
    assert s'.buffer == s.buffer;
    actions, log := WinPush(capacity, [], s, [], c, value, s');
    assert c.Add(Advance(0, false), PushWon(value)) == Account([value], [], []);
  }

  lemma WonBack(capacity: nat, value: Value) returns (actions: seq<Action>, log: seq<Event>)
    requires capacity > 0
    ensures RunWith(capacity, actions, Stage(capacity, 0, 0, Storing(value, 0), Reading(0), {value}, 1, 1), log,
                    Account([], [value], []))
  {
    actions, log := FirstWon(capacity, value);
    var s, c := Stage(capacity, 1, 0, Storing(value, 0), Idle, {value}, 1, 0), Account([value], [], []);
    var s' := Stage(capacity, 0, 0, Storing(value, 0), Reading(0), {value}, 1, 1);
    actions, log := WinPop(capacity, actions, s, log, c, s');
    assert c.Add(Advance(1, false), PopWon) == Account([], [value], []);
  }

  /**
    The pusher wins the first cell, the popper wins it back before the store, and returns a
    zero instead of the value it took: the only one that was ever pushed.
   */
  lemma PopReturnsWhatNobodyPushed(capacity: nat, value: Value)
    returns (actions: seq<Action>, s: State, log: seq<Event>)
    requires capacity > 0
    ensures Run(Init(capacity, 2), actions, s, log) && |log| == |actions| && s.offered == {value}
    ensures AllTaken(actions, log, 1) == [value] && AllReturned(actions, log, 1) == [0]
  {
    actions, log := WonBack(capacity, value);
    var s1, c := Stage(capacity, 0, 0, Storing(value, 0), Reading(0), {value}, 1, 1), Account([], [value], []);
    s := Apply(s1, Advance(1, false)).s;
    RunWithSnoc(capacity, actions, s1, log, c, Advance(1, false), s, PopDone(0));
    assert c.Add(Advance(1, false), PopDone(0)) == Account([], [value], [0]);
    actions, log := actions + [Advance(1, false)], log + [PopDone(0)];
  }

  lemma FirstStored(capacity: nat, first: Value) returns (actions: seq<Action>, log: seq<Event>)
    requires capacity > 0
    ensures RunWith(capacity, actions, Stage(capacity, 1, first, Idle, Idle, {first}, 1, 0), log,
                    Account([first], [], []))
  {
    actions, log := FirstWon(capacity, first);
    var s, c := Stage(capacity, 1, 0, Storing(first, 0), Idle, {first}, 1, 0), Account([first], [], []);
    var s' := Stage(capacity, 1, first, Idle, Idle, {first}, 1, 0);
    assert s'.buffer == s.buffer[0 := first];
    RunWithSnoc(capacity, actions, s, log, c, Advance(0, false), s', PushDone(first));
    assert c.Add(Advance(0, false), PushDone(first)) == c;
    actions, log := actions + [Advance(0, false)], log + [PushDone(first)];
  }

  lemma FirstTaken(capacity: nat, first: Value) returns (actions: seq<Action>, log: seq<Event>)
    requires capacity > 0
    ensures RunWith(capacity, actions, Stage(capacity, 0, first, Idle, Reading(0), {first}, 1, 1), log,
                    Account([], [first], []))
  {
    actions, log := FirstStored(capacity, first);
    var s, c := Stage(capacity, 1, first, Idle, Idle, {first}, 1, 0), Account([first], [], []);
    actions, log := WinPop(capacity, actions, s, log, c, Stage(capacity, 0, first, Idle, Reading(0), {first}, 1, 1));
    assert c.Add(Advance(1, false), PopWon) == Account([], [first], []);
  }

  lemma SecondWon(capacity: nat, first: Value, second: Value) returns (actions: seq<Action>, log: seq<Event>)
    requires capacity > 0
    ensures RunWith(capacity, actions, Stage(capacity, 1, first, Storing(second, 0), Reading(0), {first, second}, 2, 1),
                    log, Account([second], [first], []))
  {
    actions, log := FirstTaken(capacity, first);
    var s, c := Stage(capacity, 0, first, Idle, Reading(0), {first}, 1, 1), Account([], [first], []);
    var s' := Stage(capacity, 1, first, Storing(second, 0), Reading(0), {first, second}, 2, 1);
    actions, log := WinPush(capacity, actions, s, log, c, second, s');
    assert c.Add(Advance(0, false), PushWon(second)) == Account([second], [first], []);
  }

  lemma SecondStored(capacity: nat, first: Value, second: Value) returns (actions: seq<Action>, log: seq<Event>)
    requires capacity > 0
    ensures RunWith(capacity, actions, Stage(capacity, 1, second, Idle, Reading(0), {first, second}, 2, 1), log,
                    Account([second], [first], []))
  {
    actions, log := SecondWon(capacity, first, second);
    var s := Stage(capacity, 1, first, Storing(second, 0), Reading(0), {first, second}, 2, 1);
    var s' := Stage(capacity, 1, second, Idle, Reading(0), {first, second}, 2, 1);
    var c := Account([second], [first], []);
    assert s'.buffer == s.buffer[0 := second];
    RunWithSnoc(capacity, actions, s, log, c, Advance(0, false), s', PushDone(second));
    assert c.Add(Advance(0, false), PushDone(second)) == c;
    actions, log := actions + [Advance(0, false)], log + [PushDone(second)];
  }

  /**
    The popper takes `first`, the pusher wins the cell back and stores `second` in it, and
    the popper returns `second`, which is also still on the stack: `first` is lost.
   */
  lemma PopReturnsALaterPush(capacity: nat, first: Value, second: Value)
    returns (actions: seq<Action>, s: State, log: seq<Event>)
    requires capacity > 0
    ensures Run(Init(capacity, 2), actions, s, log) && |log| == |actions|
    ensures AllTaken(actions, log, 1) == [first] && AllReturned(actions, log, 1) == [second]
    ensures StackOf(log) == [second] && s.head == 1 && |s.buffer| == capacity && s.buffer[0] == second
    ensures s.threads == [Idle, Idle]
  {
    actions, log := SecondStored(capacity, first, second);
    var s1, c := Stage(capacity, 1, second, Idle, Reading(0), {first, second}, 2, 1), Account([second], [first], []);
    s := Apply(s1, Advance(1, false)).s;
    RunWithSnoc(capacity, actions, s1, log, c, Advance(1, false), s, PopDone(second));
    assert c.Add(Advance(1, false), PopDone(second)) == Account([second], [first], [second]);
    actions, log := actions + [Advance(1, false)], log + [PopDone(second)];
  }
}
