/**
  Why the window is needed: in a ring of any capacity, `n` producers that stall between
  taking a ticket and claiming let ticket `n` claim slot 0 and be delivered first.
 */
module RingOvertake {
  import opened RingProtocol
  import opened RingRounds
  import opened RingInvariant
  import opened RingSequential

  /** Producers 0 .. k-1 have each taken a ticket, in order, and stalled. */
  function Stalled(n: nat, msgs: seq<Message>, k: nat): State
    requires n > 0 && |msgs| == n + 1 && k <= n + 1
  {
    var s := Init(n, n + 1);
    State(
      s.m.(writeIndex := k,
           producers := seq(n + 1, p requires 0 <= p < n + 1 => if p < k then Claiming(p, msgs[p]) else Idle)),
      s.h.(issued := seq(k, t requires 0 <= t < k => Ticket(t, msgs[t], Held))))
  }

  lemma StalledNext(n: nat, msgs: seq<Message>, k: nat)
    requires n > 0 && |msgs| == n + 1 && k < n + 1
    ensures
      var s, a := Stalled(n, msgs, k), TakeTicket(k, msgs[k]);
      Enabled(s.m, a) && Step(s, a) == Stalled(n, msgs, k + 1)
  {
    var s, a := Stalled(n, msgs, k), TakeTicket(k, msgs[k]);
    assert Step(s, a).m.producers == Stalled(n, msgs, k + 1).m.producers;
    assert Step(s, a).h.issued == Stalled(n, msgs, k + 1).h.issued;
  }

  lemma {:induction false} StalledIsReached(n: nat, msgs: seq<Message>, k: nat)
    requires n > 0 && |msgs| == n + 1 && k <= n + 1
    ensures Reaches(Init(n, n + 1), Stalled(n, msgs, k))
  {
    if k == 0 {
      assert Stalled(n, msgs, 0).m.producers == Init(n, n + 1).m.producers && Stalled(n, msgs, 0).h.issued == [];
      ReachesSelf(Init(n, n + 1));
    } else {
      StalledIsReached(n, msgs, k - 1);
      StalledNext(n, msgs, k - 1);
      ReachesStep(Init(n, n + 1), Stalled(n, msgs, k - 1), TakeTicket(k - 1, msgs[k - 1]));
    }
  }

  /** A step of a producer that owns a slot: one nearer to READY, and nothing else seen to change. */
  lemma FillOutcome(s: State, p: nat, s': State)
    requires |s.m.slots| > 0 && p < |s.m.producers| && s.m.producers[p].Filling() && Steps(s, Producer(p), s')
    ensures s'.h == s.h && s'.m.consumer == s.m.consumer && s'.m.readIndex == s.m.readIndex
    ensures |s'.m.slots| == |s.m.slots| && |s'.m.producers| == |s.m.producers|
    ensures s.m.producers[p].Publishing? ==> s'.m.slots[SlotOf(s.m.producers[p].index, |s.m.slots|)].state == READY
    ensures !s.m.producers[p].Publishing? ==>
              s'.m.producers[p].Filling() && s'.m.producers[p].index == s.m.producers[p].index
              && PushStepsLeft(s'.m.producers[p]) < PushStepsLeft(s.m.producers[p])
  {
  }

  /** A producer that owns a slot publishes it in a few steps of its own. */
  lemma {:induction false} FillOut(s0: State, s: State, p: nat) returns (s': State)
    requires Reaches(s0, s) && Inv(s) && p < |s.m.producers| && s.m.producers[p].Filling()
    ensures Reaches(s0, s') && Inv(s')
    ensures |s'.m.slots| == |s.m.slots| && s'.m.slots[SlotOf(s.m.producers[p].index, |s.m.slots|)].state == READY
    ensures s'.h == s.h && s'.m.consumer == s.m.consumer && s'.m.readIndex == s.m.readIndex
    decreases PushStepsLeft(s.m.producers[p])
  {
    s' := Step(s, Producer(p));
    StepKeepsInv(s, Producer(p));
    ReachesStep(s0, s, Producer(p));
    FillOutcome(s, p, s');
    if !s.m.producers[p].Publishing? {
      s' := FillOut(s0, s', p);
    }
  }

  /** A pop that is going to find READY, or has found it, takes the message in a few steps of its own. */
  lemma {:induction false} TakeOut(s0: State, s: State) returns (s': State)
    requires Reaches(s0, s) && Inv(s) && (s.m.consumer.Probing? || s.m.consumer.Holding())
    requires s.m.slots[SlotOf(s.m.consumer.index, |s.m.slots|)].state == READY
    requires s.m.consumer.req.bufferSize >= MAX_PAYLOAD_SIZE
    ensures Reaches(s0, s') && Inv(s')
    ensures |s'.h.consumed| == |s.h.consumed| + 1 && s'.h.claims == s.h.claims && s'.h.issued == s.h.issued
    decreases PopStepsLeft(s.m.consumer)
  {
    s' := Step(s, Consumer);
    var i := SlotOf(s.m.consumer.index, |s.m.slots|);
    assert SlotOk(s.m, i, s.h.claims[i], Rounds(|s.h.consumed|, i, |s.m.slots|));
    StepKeepsInv(s, Consumer);
    ReachesStep(s0, s, Consumer);
    if !s.m.consumer.Releasing? {
      s' := TakeOut(s0, s');
    }
  }

  /** Ticket `n` claims slot 0 while tickets 0 .. n-1 are all still held. */
  lemma OvertakerClaims(n: nat, msgs: seq<Message>) returns (s: State)
    requires n > 0 && |msgs| == n + 1
    ensures Reaches(Init(n, n + 1), s) && Inv(s) && |s.m.slots| == n
    ensures s.h.claims[0] == [Claim(n, n, msgs[n])]
    ensures n < |s.m.producers| && s.m.producers[n] == WritingType(n, msgs[n])
    ensures |s.h.issued| == n + 1 && forall t :: 0 <= t < n ==> s.h.issued[t] == Ticket(t, msgs[t], Held)
    ensures s.h.consumed == [] && s.m.consumer.Outside? && s.m.readIndex == 0
  {
    StalledIsReached(n, msgs, n + 1);
    var s0 := Stalled(n, msgs, n + 1);
    ReachedInv(n, n + 1, s0);
    SlotsRepeat(0, n);
    assert SlotOf(n, n) == 0;
    s := Step(s0, Producer(n));
    ReachesStep(Init(n, n + 1), s0, Producer(n));
    StepKeepsInv(s0, Producer(n));
  }

  /**
    Unconditional FIFO is false at every capacity: there is a run in which the first
    message delivered is the one of ticket `n`, with ticket 0 never delivered.
   */
  lemma FifoFailsWithoutWindow(n: nat, msgs: seq<Message>, req: PopRequest)
    returns (actions: seq<Action>, s: State)
    requires n > 0 && |msgs| == n + 1 && req.bufferSize >= MAX_PAYLOAD_SIZE
    ensures Run(Init(n, n + 1), actions, s)
    ensures |s.h.consumed| == 1 && s.h.consumed[0].header == HeaderOf(msgs[n])
    ensures |s.h.issued| == n + 1 && forall t :: 0 <= t < n ==> s.h.issued[t] == Ticket(t, msgs[t], Held)
  {
    var s0 := Init(n, n + 1);
    var s1 := OvertakerClaims(n, msgs);
    SlotsRepeat(0, n);
    assert SlotOf(n, n) == 0 == SlotOf(0, n);
    var s2 := FillOut(s0, s1, n);
    var s3 := Step(s2, BeginPop(req));
    ReachesStep(s0, s2, BeginPop(req));
    StepKeepsInv(s2, BeginPop(req));
    s := TakeOut(s0, s3);
    actions :| Run(s0, actions, s);
    assert Delivered(s.h, n, 0);
    assert RoundOf(0, n) == 0;
  }
}
