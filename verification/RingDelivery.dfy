/**
  What holds of the ring in every run, for any capacity, any number of producers, one
  consumer and any interleaving.
 */
module RingDelivery {
  import opened RingProtocol
  import opened RingRounds
  import opened RingInvariant
  import opened Sums

  // ---------- Delivery ----------

  /** Consumed message `k` is the `q`-th claim of slot `i`, handed over exactly when the types match. */
  predicate ComesFrom(h: History, k: nat, i: int, q: int)
  {
    && k < |h.consumed| && 0 <= i < |h.claims| && 0 <= q < |h.claims[i]|
    && var msg := h.claims[i][q].msg;
    && h.consumed[k].header.typ == msg.typ
    && h.consumed[k].header.length == |msg.data|
    && (msg.typ == h.consumed[k].expected ==> h.consumed[k].out == msg.data)
    && (msg.typ != h.consumed[k].expected ==> h.consumed[k].out == [])
  }

  /**
    The `k`-th message taken out of the ring is the one put in by the `k / n`-th
    successful claim of slot `k % n`: its header unchanged, and its bytes handed over
    exactly when its type is the one the pop asked for.
   */
  lemma EveryRunDelivers(n: nat, producers: nat, actions: seq<Action>, s: State, k: nat)
    requires n > 0 && Run(Init(n, producers), actions, s) && k < |s.h.consumed|
    ensures |s.h.claims| == n && ComesFrom(s.h, k, k % n, k / n)
  {
    InitInv(n, producers);
    RunKeepsInv(Init(n, producers), actions, s);
    RoundOfIsQuotient(k, n);
    assert Delivered(s.h, n, k);
  }

  /** What a finished pop returns to its caller is the message it took, matched by type. */
  lemma PopReturnsWhatItTook(s: State)
    requires Inv(s) && s.m.consumer.Advancing?
    ensures
      var k := |s.h.consumed| - 1;
      var msg := s.h.claims[SlotOf(k, |s.m.slots|)][RoundOf(k, |s.m.slots|)].msg;
      var matched := msg.typ == s.m.consumer.req.expected;
      && k == s.m.readIndex
      && Next(s.m, Consumer, 0).1 == PopReturned(matched, HeaderOf(msg), if matched then msg.data else [])
      && Next(s.m, Consumer, 0).0.readIndex == |s.h.consumed|
  {
    assert Delivered(s.h, |s.m.slots|, |s.h.consumed| - 1);
  }

  /** No push is delivered twice: different claims come from different tickets. */
  lemma ClaimsHaveDistinctTickets(s: State, i: nat, q: nat, i': nat, q': nat)
    requires Inv(s)
    requires i < |s.h.claims| && q < |s.h.claims[i]| && i' < |s.h.claims| && q' < |s.h.claims[i']|
    requires s.h.claims[i][q].ticket == s.h.claims[i'][q'].ticket
    ensures i == i' && q == q'
  {
    assert ClaimOk(s, i, q) && ClaimOk(s, i', q');
  }

  /**
    Claimed messages still to come: in every run a slot has been claimed as often as the
    consumer has emptied it, and once more while it is not EMPTY.
   */
  lemma OneOutstandingClaimPerSlot(n: nat, producers: nat, actions: seq<Action>, s: State, i: nat)
    requires n > 0 && Run(Init(n, producers), actions, s) && i < n
    ensures |s.m.slots| == |s.h.claims| == n
    ensures |s.h.claims[i]| == Rounds(|s.h.consumed|, i, n) + if s.m.slots[i].state == EMPTY then 0 else 1
  {
    InitInv(n, producers);
    RunKeepsInv(Init(n, producers), actions, s);
    assert SlotOk(s.m, i, s.h.claims[i], Rounds(|s.h.consumed|, i, n));
  }

  // ---------- What was asked for ----------

  datatype Call = Call(producer: nat, msg: Message)

  /** The pushes started in a run, in order. */
  function Started(actions: seq<Action>): seq<Call>
  {
    if actions == [] then []
    else
      var a := actions[|actions| - 1];
      Started(actions[..|actions| - 1]) + if a.TakeTicket? then [Call(a.p, a.msg)] else []
  }

  /** The pops started in a run, in order. */
  function Asked(actions: seq<Action>): seq<PopRequest>
  {
    if actions == [] then []
    else
      var a := actions[|actions| - 1];
      Asked(actions[..|actions| - 1]) + if a.BeginPop? then [a.req] else []
  }

  predicate TicketsMatch(issued: seq<Ticket>, calls: seq<Call>)
  {
    |issued| == |calls| && forall t :: 0 <= t < |calls| ==> Call(issued[t].producer, issued[t].msg) == calls[t]
  }

  /** No step changes who took a ticket and with what; only taking one adds one. */
  lemma StepKeepsTickets(s: State, a: Action, s': State)
    requires Steps(s, a, s')
    ensures
      if a.TakeTicket? then s'.h.issued == s.h.issued + [Ticket(a.p, a.msg, Held)]
      else
        && |s'.h.issued| == |s.h.issued|
        && forall t :: 0 <= t < |s.h.issued| ==>
             s'.h.issued[t].producer == s.h.issued[t].producer && s'.h.issued[t].msg == s.h.issued[t].msg
  {
  }

  lemma StepMatchesTickets(s: State, a: Action, s': State, calls: seq<Call>)
    requires Steps(s, a, s') && TicketsMatch(s.h.issued, calls)
    ensures TicketsMatch(s'.h.issued, calls + if a.TakeTicket? then [Call(a.p, a.msg)] else [])
  {
    StepKeepsTickets(s, a, s');
  }

  lemma StepKeepsRequest(s: State, a: Action, s': State)
    requires Steps(s, a, s') && !s'.m.consumer.Outside?
    ensures
      if a.BeginPop? then s'.m.consumer.req == a.req
      else !s.m.consumer.Outside? && s'.m.consumer.req == s.m.consumer.req
  {
  }

  /** The pop in progress has the last of these requests. */
  predicate RequestMatches(pc: ConsumerPc, asked: seq<PopRequest>)
  {
    !pc.Outside? ==> asked != [] && pc.req == asked[|asked| - 1]
  }

  lemma StepMatchesRequest(s: State, a: Action, s': State, asked: seq<PopRequest>)
    requires Steps(s, a, s') && RequestMatches(s.m.consumer, asked)
    ensures RequestMatches(s'.m.consumer, asked + if a.BeginPop? then [a.req] else [])
  {
    if !s'.m.consumer.Outside? {
      StepKeepsRequest(s, a, s');
    }
  }

  /**
    Ticket `t` carries the producer and the message of the `t`-th push started, and a pop in
    progress the request it was started with.
   */
  lemma {:induction false} ArgumentsAreKept(n: nat, producers: nat, actions: seq<Action>, s: State)
    requires Run(Init(n, producers), actions, s)
    ensures TicketsMatch(s.h.issued, Started(actions))
    ensures RequestMatches(s.m.consumer, Asked(actions))
    decreases |actions|
  {
    if actions != [] {
      var last := |actions| - 1;
      var s' :| Run(Init(n, producers), actions[..last], s') && Steps(s', actions[last], s);
      ArgumentsAreKept(n, producers, actions[..last], s');
      StepMatchesTickets(s', actions[last], s, Started(actions[..last]));
      StepMatchesRequest(s', actions[last], s, Asked(actions[..last]));
    }
  }

  /** No push or pop ever waits: whoever is idle can start any, and whoever is inside one can go on. */
  lemma NonBlocking(m: Machine, p: nat, msg: Message, req: PopRequest)
    requires p < |m.producers|
    ensures Enabled(m, if m.producers[p].Idle? then TakeTicket(p, msg) else Producer(p))
    ensures Enabled(m, if m.consumer.Outside? then BeginPop(req) else Consumer)
  {
  }

  // ---------- Exclusion and contents ----------

  /** The slot a thread is about to touch is one that no other thread is about to touch. */
  predicate Apart(m: Machine, p: nat)
    requires |m.slots| > 0 && p < |m.producers|
  {
    m.producers[p].Accesses() ==>
      && (m.consumer.Accesses() ==> SlotOf(m.consumer.index, |m.slots|) != SlotOf(m.producers[p].index, |m.slots|))
      && forall p' :: 0 <= p' < |m.producers| && p' != p && m.producers[p'].Accesses() ==>
           SlotOf(m.producers[p'].index, |m.slots|) != SlotOf(m.producers[p].index, |m.slots|)
  }

  /** No two threads are ever about to touch the header or payload of the same slot. */
  lemma SlotExclusion(n: nat, producers: nat, actions: seq<Action>, s: State, p: nat)
    requires n > 0 && Run(Init(n, producers), actions, s) && p < producers
    ensures |s.m.slots| == n && |s.m.producers| == producers && Apart(s.m, p)
  {
    InitInv(n, producers);
    RunKeepsInv(Init(n, producers), actions, s);
    assert ProducerOk(s, p);
    forall p' | 0 <= p' < |s.m.producers| && p' != p && s.m.producers[p'].Accesses() && s.m.producers[p].Accesses()
      ensures SlotOf(s.m.producers[p'].index, n) != SlotOf(s.m.producers[p].index, n)
    {
      assert ProducerOk(s, p');
    }
  }

  /** EMPTY slots are blank; READY slots the consumer has not reached hold a claimed message, zero-padded. */
  lemma SlotContents(n: nat, producers: nat, actions: seq<Action>, s: State, i: nat)
    requires n > 0 && Run(Init(n, producers), actions, s) && i < n
    ensures |s.m.slots| == |s.h.claims| == n
    ensures s.m.slots[i].state == EMPTY ==>
              && s.m.slots[i].header == Header(0, 0)
              && forall b :: 0 <= b < MAX_PAYLOAD_SIZE ==> s.m.slots[i].payload[b] == 0
    ensures s.m.slots[i].state == READY && !HeldByConsumer(s.m, i) ==>
              && s.h.claims[i] != []
              && var msg := s.h.claims[i][|s.h.claims[i]| - 1].msg;
              && s.m.slots[i].header == Header(msg.typ, |msg.data|)
              && s.m.slots[i].payload[..|msg.data|] == msg.data
              && forall b :: |msg.data| <= b < MAX_PAYLOAD_SIZE ==> s.m.slots[i].payload[b] == 0
  {
    InitInv(n, producers);
    RunKeepsInv(Init(n, producers), actions, s);
    assert SlotOk(s.m, i, s.h.claims[i], Rounds(|s.h.consumed|, i, n));
  }

  // ---------- Ticket accounting ----------

  function ClaimingWeight(): ProducerPc -> nat
  {
    (pc: ProducerPc) => if pc.Claiming? then 1 else 0
  }

  function StateWeight(state: SlotState): Slot -> nat
  {
    (slot: Slot) => if slot.state == state then 1 else 0
  }

  function BurnedWeight(): Ticket -> nat
  {
    (t: Ticket) => if t.fate.Burned? then 1 else 0
  }

  function TicketsHeld(m: Machine): nat { Total(ClaimingWeight(), m.producers) }

  function SlotsIn(m: Machine, state: SlotState): nat { Total(StateWeight(state), m.slots) }

  function TicketsBurned(h: History): nat { Total(BurnedWeight(), h.issued) }

  predicate Balanced(s: State)
  {
    s.m.writeIndex ==
    TicketsHeld(s.m) + TicketsBurned(s.h) + SlotsIn(s.m, WRITING) + SlotsIn(s.m, READY) + |s.h.consumed|
  }

  lemma SlotCount(m: Machine, m': Machine, i: nat, state: SlotState)
    requires i < |m.slots| == |m'.slots| && m'.slots == m.slots[i := m'.slots[i]]
    ensures SlotsIn(m', state) + (if m.slots[i].state == state then 1 else 0)
         == SlotsIn(m, state) + (if m'.slots[i].state == state then 1 else 0)
  {
    TotalUpdate(StateWeight(state), m.slots, i, m'.slots[i]);
  }

  lemma WonBalanced(s: State, p: nat)
    requires Inv(s) && Enabled(s.m, Producer(p)) && s.m.producers[p].Claiming? && Balanced(s)
    requires s.m.slots[SlotOf(s.m.producers[p].index, |s.m.slots|)].state == EMPTY
    ensures Balanced(Step(s, Producer(p)))
  {
    var s', pc := Step(s, Producer(p)), s.m.producers[p];
    var i := SlotOf(pc.index, |s.m.slots|);
    assert ProducerOk(s, p);
    TotalUpdate(ClaimingWeight(), s.m.producers, p, s'.m.producers[p]);
    TotalUpdate(BurnedWeight(), s.h.issued, pc.index, s'.h.issued[pc.index]);
    SlotCount(s.m, s'.m, i, WRITING);
    SlotCount(s.m, s'.m, i, READY);
  }

  lemma BurnedBalanced(s: State, p: nat)
    requires Inv(s) && Enabled(s.m, Producer(p)) && s.m.producers[p].Claiming? && Balanced(s)
    requires s.m.slots[SlotOf(s.m.producers[p].index, |s.m.slots|)].state != EMPTY
    ensures Balanced(Step(s, Producer(p)))
  {
    var s', pc := Step(s, Producer(p)), s.m.producers[p];
    assert ProducerOk(s, p);
    TotalUpdate(ClaimingWeight(), s.m.producers, p, Idle);
    TotalUpdate(BurnedWeight(), s.h.issued, pc.index, s'.h.issued[pc.index]);
  }

  lemma FillBalanced(s: State, p: nat)
    requires Inv(s) && Enabled(s.m, Producer(p)) && s.m.producers[p].Filling() && Balanced(s)
    ensures Balanced(Step(s, Producer(p)))
  {
    var s' := Step(s, Producer(p));
    var i := SlotOf(s.m.producers[p].index, |s.m.slots|);
    assert ProducerOk(s, p);
    TotalUpdate(ClaimingWeight(), s.m.producers, p, s'.m.producers[p]);
    SlotCount(s.m, s'.m, i, WRITING);
    SlotCount(s.m, s'.m, i, READY);
  }

  /** A consumer step changes no slot's state, except that the release makes READY into EMPTY. */
  lemma ConsumerOutcome(s: State, s': State)
    requires Steps(s, Consumer, s')
    ensures
      var i := SlotOf(s.m.consumer.index, |s.m.slots|);
      && |s'.m.slots| == |s.m.slots| && s'.m.slots == s.m.slots[i := s'.m.slots[i]]
      && s'.m.slots[i].state == (if s.m.consumer.Releasing? then EMPTY else s.m.slots[i].state)
      && |s'.h.consumed| == |s.h.consumed| + (if s.m.consumer.Releasing? then 1 else 0)
      && s'.m.producers == s.m.producers && s'.m.writeIndex == s.m.writeIndex && s'.h.issued == s.h.issued
  {
  }

  lemma ConsumerStepBalanced(s: State)
    requires Inv(s) && Enabled(s.m, Consumer) && Balanced(s)
    ensures Balanced(Step(s, Consumer))
  {
    var s' := Step(s, Consumer);
    var i := SlotOf(s.m.consumer.index, |s.m.slots|);
    ConsumerOutcome(s, s');
    SlotCount(s.m, s'.m, i, WRITING);
    SlotCount(s.m, s'.m, i, READY);
  }

  lemma StepBalanced(s: State, a: Action)
    requires Inv(s) && Enabled(s.m, a) && Balanced(s)
    ensures Balanced(Step(s, a))
  {
    match a
    case TakeTicket(p, msg) =>
      TotalUpdate(ClaimingWeight(), s.m.producers, p, Claiming(s.m.writeIndex, msg));
      TotalAppend(BurnedWeight(), s.h.issued, Ticket(p, msg, Held));
    case Producer(p) =>
      if s.m.producers[p].Filling() {
        FillBalanced(s, p);
      } else if s.m.slots[SlotOf(s.m.producers[p].index, |s.m.slots|)].state == EMPTY {
        WonBalanced(s, p);
      } else {
        BurnedBalanced(s, p);
      }
    case BeginPop(req) =>
    case Consumer => ConsumerStepBalanced(s);
  }

  lemma {:induction false} RunBalanced(s0: State, actions: seq<Action>, s1: State)
    requires Inv(s0) && Balanced(s0) && Run(s0, actions, s1)
    ensures Balanced(s1)
    decreases |actions|
  {
    if actions != [] {
      var last := |actions| - 1;
      var s :| Run(s0, actions[..last], s) && Steps(s, actions[last], s1);
      RunBalanced(s0, actions[..last], s);
      RunKeepsInv(s0, actions[..last], s);
      StepBalanced(s, actions[last]);
    }
  }

  /**
    Every ticket ever taken is accounted for: still held, burned by a failed CAS, in a
    slot being written or ready, or consumed; and the consumed ones are `readIndex`, or
    one more while the consumer stands between its two last stores.
   */
  lemma TicketAccounting(n: nat, producers: nat, actions: seq<Action>, s: State)
    requires n > 0 && Run(Init(n, producers), actions, s)
    ensures s.m.writeIndex ==
            TicketsHeld(s.m) + TicketsBurned(s.h) + SlotsIn(s.m, WRITING) + SlotsIn(s.m, READY) + |s.h.consumed|
    ensures |s.h.consumed| == s.m.readIndex + if s.m.consumer.Advancing? then 1 else 0
  {
    var s0 := Init(n, producers);
    InitInv(n, producers);
    TotalZero(ClaimingWeight(), s0.m.producers);
    TotalZero(StateWeight(WRITING), s0.m.slots);
    TotalZero(StateWeight(READY), s0.m.slots);
    RunBalanced(s0, actions, s);
    RunKeepsInv(s0, actions, s);
  }

  /** Each ticket has one fate, and the fate names its one claim. */
  lemma TicketFates(s: State, t: nat)
    requires Inv(s) && t < s.m.writeIndex
    ensures |s.h.issued| == s.m.writeIndex
    ensures s.h.issued[t].fate.Held? <==>
            exists p :: 0 <= p < |s.m.producers| && s.m.producers[p].Claiming? && s.m.producers[p].index == t
    ensures s.h.issued[t].fate.Won? <==>
            exists i, q :: 0 <= i < |s.h.claims| && 0 <= q < |s.h.claims[i]| && s.h.claims[i][q].ticket == t
  {
    assert FateOk(s, t);
    if p :| 0 <= p < |s.m.producers| && s.m.producers[p].Claiming? && s.m.producers[p].index == t {
      assert ProducerOk(s, p);
    }
    if i, q :| 0 <= i < |s.h.claims| && 0 <= q < |s.h.claims[i]| && s.h.claims[i][q].ticket == t {
      assert ClaimOk(s, i, q);
    }
  }
}
