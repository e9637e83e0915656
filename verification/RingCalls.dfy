/**
  Every push and pop of the ring gets its answer, in every sequence of steps and with or
  without wrap-around: a push by true or false, a pop by one of its four returns.
 */
module RingCalls {
  import opened RingProtocol
  import opened RingWrap

  /** The push that producer `p` starts in this step, if it does. */
  function PushStarted(a: Action, p: nat): nat
  {
    if a.TakeTicket? && a.p == p then 1 else 0
  }

  /** The answer, if a push of producer `p` returns in this step. */
  function PushAnswer(e: Event, p: nat): seq<bool>
  {
    if e.Pushed? && e.producer == p then [true]
    else if e.Rejected? && e.producer == p then [false]
    else []
  }

  function InPush(m: Machine, p: nat): nat
  {
    if p < |m.producers| && !m.producers[p].Idle? then 1 else 0
  }

  function PopStarted(a: Action): nat
  {
    if a.BeginPop? then 1 else 0
  }

  /** The answer, if the pop returns in this step: whether a message was handed over. */
  function PopAnswer(e: Event): seq<bool>
  {
    if e.PopReturned? then [e.matched]
    else if e.PopNotReady? || e.PopTooLong? then [false]
    else []
  }

  function InPop(m: Machine): nat
  {
    if m.consumer.Outside? then 0 else 1
  }

  lemma StepAnswersPush(m: Machine, a: Action, wrap: nat, p: nat)
    requires |m.slots| > 0 && Enabled(m, a)
    ensures InPush(m, p) + PushStarted(a, p)
         == |PushAnswer(Visible(Next(m, a, wrap).1), p)| + InPush(Next(m, a, wrap).0, p)
  {
  }

  lemma StepAnswersPop(m: Machine, a: Action, wrap: nat)
    requires |m.slots| > 0 && Enabled(m, a)
    ensures InPop(m) + PopStarted(a) == |PopAnswer(Visible(Next(m, a, wrap).1))| + InPop(Next(m, a, wrap).0)
  {
  }

  /** A push answers true by publishing its slot, and false by finding it taken, and not otherwise. */
  lemma PushAnswerIsRight(m: Machine, a: Action, wrap: nat, p: nat)
    requires |m.slots| > 0 && Enabled(m, a) && p < |m.producers|
    ensures
      var pc, answer := m.producers[p], PushAnswer(Next(m, a, wrap).1, p);
      && (answer == [true] <==> a == Producer(p) && pc.Publishing?)
      && (answer == [false] <==>
            a == Producer(p) && pc.Claiming? && m.slots[SlotOf(pc.index, |m.slots|)].state != EMPTY)
  {
  }

  // ---------- Whole runs ----------

  function Final(m: Machine, actions: seq<Action>, wrap: nat): Machine
    requires CanRun(m, actions, wrap)
    decreases |actions|
  {
    if actions == [] then m else Final(Next(m, actions[0], wrap).0, actions[1..], wrap)
  }

  function PushesStarted(actions: seq<Action>, p: nat): nat
  {
    if actions == [] then 0 else PushStarted(actions[0], p) + PushesStarted(actions[1..], p)
  }

  function PushAnswers(log: seq<Event>, p: nat): seq<bool>
  {
    if log == [] then [] else PushAnswer(log[0], p) + PushAnswers(log[1..], p)
  }

  function PopsStarted(actions: seq<Action>): nat
  {
    if actions == [] then 0 else PopStarted(actions[0]) + PopsStarted(actions[1..])
  }

  function PopAnswers(log: seq<Event>): seq<bool>
  {
    if log == [] then [] else PopAnswer(log[0]) + PopAnswers(log[1..])
  }

  lemma ObservedTail(m: Machine, actions: seq<Action>, wrap: nat)
    requires CanRun(m, actions, wrap) && actions != []
    ensures
      var (m', e), log := Next(m, actions[0], wrap), Observed(m, actions, wrap);
      log != [] && log[0] == Visible(e) && log[1..] == Observed(m', actions[1..], wrap)
  {
  }

  lemma {:induction false} PushesAnswered(m: Machine, actions: seq<Action>, wrap: nat, p: nat)
    requires CanRun(m, actions, wrap)
    ensures InPush(m, p) + PushesStarted(actions, p)
         == |PushAnswers(Observed(m, actions, wrap), p)| + InPush(Final(m, actions, wrap), p)
    decreases |actions|
  {
    if actions != [] {
      ObservedTail(m, actions, wrap);
      StepAnswersPush(m, actions[0], wrap, p);
      PushesAnswered(Next(m, actions[0], wrap).0, actions[1..], wrap, p);
    }
  }

  lemma {:induction false} PopsAnswered(m: Machine, actions: seq<Action>, wrap: nat)
    requires CanRun(m, actions, wrap)
    ensures InPop(m) + PopsStarted(actions)
         == |PopAnswers(Observed(m, actions, wrap))| + InPop(Final(m, actions, wrap))
    decreases |actions|
  {
    if actions != [] {
      ObservedTail(m, actions, wrap);
      StepAnswersPop(m, actions[0], wrap);
      PopsAnswered(Next(m, actions[0], wrap).0, actions[1..], wrap);
    }
  }

  /**
    From a fresh ring, producer by producer, every push started has returned true or false,
    save the one under way; and so has every pop.
   */
  lemma EveryCallIsAnswered(n: nat, producers: nat, actions: seq<Action>, wrap: nat, p: nat)
    requires CanRun(Init(n, producers).m, actions, wrap)
    ensures
      var m, log := Final(Init(n, producers).m, actions, wrap), Observed(Init(n, producers).m, actions, wrap);
      && PushesStarted(actions, p) == |PushAnswers(log, p)| + InPush(m, p)
      && PopsStarted(actions) == |PopAnswers(log)| + InPop(m)
  {
    PushesAnswered(Init(n, producers).m, actions, wrap, p);
    PopsAnswered(Init(n, producers).m, actions, wrap);
  }
}
