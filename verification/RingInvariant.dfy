/**
  What every step of the ring keeps: who owns a slot and what it holds, where each
  ticket went, and which claim each consumed message came from.
 */
module RingInvariant {
  import opened RingProtocol
  import opened Sequences
  import opened RingRounds

  // ---------- The invariant ----------

  /** Header and payload as they stand when a producer is about to take its next step. */
  predicate FilledUpTo(slot: Slot, pc: ProducerPc)
    requires pc.Filling()
  {
    && slot.header.typ == (if pc.WritingType? then UNKNOWN else pc.msg.typ)
    && slot.header.length == (if pc.WritingType? || pc.WritingLength? then 0 else |pc.msg.data|)
    && slot.payload == (if pc.Publishing? then Padded(pc.msg) else Zeros(MAX_PAYLOAD_SIZE))
  }

  function Padded(msg: Message): Payload
  {
    msg.data + Zeros(MAX_PAYLOAD_SIZE - |msg.data|)
  }

  /** Header and payload as they stand when the consumer is about to take its next step. */
  predicate ClearedUpTo(slot: Slot, pc: ConsumerPc, msg: Message)
    requires pc.Holding()
  {
    && slot.header.typ == (if pc.ClearingLength? || pc.ClearingPayload? || pc.Releasing? then UNKNOWN else msg.typ)
    && slot.header.length == (if pc.ClearingPayload? || pc.Releasing? then 0 else |msg.data|)
    && slot.payload == (if pc.Releasing? then Zeros(MAX_PAYLOAD_SIZE) else Padded(msg))
  }

  predicate Full(slot: Slot, msg: Message)
  {
    slot.header == HeaderOf(msg) && slot.payload == Padded(msg)
  }

  /** The consumer is working on slot `i`. */
  predicate HeldByConsumer(m: Machine, i: nat)
    requires |m.slots| > 0
  {
    m.consumer.Holding() && SlotOf(m.consumer.index, |m.slots|) == i
  }

  /** Slot `i`, the claims on it, and the claims on it already consumed. */
  predicate SlotOk(m: Machine, i: nat, claims: seq<Claim>, rounds: nat)
    requires i < |m.slots|
  {
    var slot := m.slots[i];
    match slot.state
    case EMPTY => |claims| == rounds && slot == BlankSlot()
    case WRITING =>
      && |claims| == rounds + 1
      && var c := claims[rounds];
      && c.producer < |m.producers|
      && var pc := m.producers[c.producer];
      && pc.Filling() && pc.index == c.ticket && pc.msg == c.msg
      && SlotOf(pc.index, |m.slots|) == i
      && FilledUpTo(slot, pc)
    case READY =>
      && |claims| == rounds + 1
      && (if HeldByConsumer(m, i) then ClearedUpTo(slot, m.consumer, claims[rounds].msg)
          else Full(slot, claims[rounds].msg))
  }

  predicate SlotsOk(s: State)
    requires |s.m.slots| == |s.h.claims|
  {
    forall i :: 0 <= i < |s.m.slots| ==>
      SlotOk(s.m, i, s.h.claims[i], Rounds(|s.h.consumed|, i, |s.m.slots|))
  }

  predicate ProducerOk(s: State, p: nat)
    requires 0 < |s.m.slots| == |s.h.claims| && p < |s.m.producers|
  {
    var pc := s.m.producers[p];
    && (pc.Claiming? ==> pc.index < |s.h.issued| && s.h.issued[pc.index] == Ticket(p, pc.msg, Held))
    && (pc.Filling() ==>
          var i := SlotOf(pc.index, |s.m.slots|);
          && s.m.slots[i].state == WRITING
          && s.h.claims[i] != []
          && s.h.claims[i][|s.h.claims[i]| - 1] == Claim(p, pc.index, pc.msg))
  }

  predicate ProducersOk(s: State)
    requires 0 < |s.m.slots| == |s.h.claims|
  {
    forall p :: 0 <= p < |s.m.producers| ==> ProducerOk(s, p)
  }

  predicate Extracted(req: PopRequest, header: Header, out: seq<Byte>, msg: Message)
  {
    && header == HeaderOf(msg)
    && out == (if msg.typ == req.expected then msg.data else [])
  }

  predicate ConsumerOk(s: State)
    requires 0 < |s.m.slots| == |s.h.claims|
  {
    var pc := s.m.consumer;
    && |s.h.consumed| == s.m.readIndex + (if pc.Advancing? then 1 else 0)
    && (!pc.Outside? ==> pc.index == s.m.readIndex)
    && (pc.Advancing? ==> s.h.consumed[s.m.readIndex] == Consumed(pc.req.expected, pc.header, pc.out))
    && (pc.Holding() ==>
          var i := SlotOf(pc.index, |s.m.slots|);
          && s.m.slots[i].state == READY
          && s.h.claims[i] != []
          && (!pc.ReadingHeader? ==> pc.header.length <= pc.req.bufferSize)
          && var msg := s.h.claims[i][|s.h.claims[i]| - 1].msg;
          && (pc.CopyingOut? ==> pc.header == HeaderOf(msg))
          && (pc.ClearingType? || pc.ClearingLength? || pc.ClearingPayload? || pc.Releasing? ==>
                Extracted(pc.req, pc.header, pc.out, msg)))
  }

  /** Consumed message `k` is the `k / n`-th claim of slot `k % n`. */
  predicate Delivered(h: History, n: nat, k: nat)
    requires 0 < n == |h.claims| && k < |h.consumed|
  {
    && RoundOf(k, n) < |h.claims[SlotOf(k, n)]|
    && var msg := h.claims[SlotOf(k, n)][RoundOf(k, n)].msg;
    && h.consumed[k].header == HeaderOf(msg)
    && h.consumed[k].out == (if msg.typ == h.consumed[k].expected then msg.data else [])
  }

  predicate DeliveryLaw(h: History, n: nat)
    requires 0 < n == |h.claims|
  {
    forall k :: 0 <= k < |h.consumed| ==> Delivered(h, n, k)
  }

  /** Every ticket is held by one producer, burned, or the ticket of exactly one claim. */
  predicate TicketsOk(s: State)
    requires 0 < |s.m.slots| == |s.h.claims|
  {
    var h := s.h;
    && |h.issued| == s.m.writeIndex
    && (forall t :: 0 <= t < |h.issued| ==> FateOk(s, t))
    && (forall i, q :: 0 <= i < |h.claims| && 0 <= q < |h.claims[i]| ==> ClaimOk(s, i, q))
  }

  predicate FateOk(s: State, t: nat)
    requires t < |s.h.issued|
  {
    var ticket := s.h.issued[t];
    && (ticket.fate.Held? ==>
          && ticket.producer < |s.m.producers|
          && s.m.producers[ticket.producer] == Claiming(t, ticket.msg))
    && (ticket.fate.Won? ==>
          && ticket.fate.slot < |s.h.claims|
          && ticket.fate.round < |s.h.claims[ticket.fate.slot]|
          && s.h.claims[ticket.fate.slot][ticket.fate.round].ticket == t)
  }

  predicate ClaimOk(s: State, i: nat, q: nat)
    requires 0 < |s.m.slots| && i < |s.h.claims| && q < |s.h.claims[i]|
  {
    var c := s.h.claims[i][q];
    && c.ticket < |s.h.issued|
    && s.h.issued[c.ticket] == Ticket(c.producer, c.msg, Won(i, q))
    && SlotOf(c.ticket, |s.m.slots|) == i
  }

  predicate Inv(s: State)
  {
    && 0 < |s.m.slots| == |s.h.claims|
    && SlotsOk(s)
    && ProducersOk(s)
    && ConsumerOk(s)
    && DeliveryLaw(s.h, |s.m.slots|)
    && TicketsOk(s)
  }

  // ---------- Preservation ----------

  lemma InitInv(n: nat, producers: nat)
    requires n > 0
    ensures Inv(Init(n, producers))
  {
  }

  /** A producer's step leaves alone the slots it does not own. */
  lemma SlotUntouchedByProducer(m: Machine, m': Machine, p: nat, j: nat, claims: seq<Claim>, rounds: nat)
    requires p < |m.producers| == |m'.producers| && j < |m.slots| == |m'.slots|
    requires m'.producers == m.producers[p := m'.producers[p]] && m'.consumer == m.consumer
    requires m'.slots[j] == m.slots[j]
    requires m.producers[p].Filling() ==> SlotOf(m.producers[p].index, |m.slots|) != j
    requires SlotOk(m, j, claims, rounds)
    ensures SlotOk(m', j, claims, rounds)
  {
  }

  /** The consumer's step leaves alone the slots other than its own. */
  lemma SlotUntouchedByConsumer(m: Machine, m': Machine, i: nat, j: nat, claims: seq<Claim>, rounds: nat)
    requires i < |m.slots| && j < |m.slots| == |m'.slots| && i != j
    requires m'.producers == m.producers
    requires m'.slots[j] == m.slots[j]
    requires !HeldByConsumer(m, j) && !HeldByConsumer(m', j)
    requires SlotOk(m, j, claims, rounds)
    ensures SlotOk(m', j, claims, rounds)
  {
  }

  /** Claims are only ever added at the end, so what was delivered stays delivered. */
  lemma DeliveryKept(h: History, h': History, n: nat)
    requires 0 < n == |h.claims| == |h'.claims|
    requires h'.consumed == h.consumed
    requires forall i :: 0 <= i < n ==> h.claims[i] <= h'.claims[i]
    requires DeliveryLaw(h, n)
    ensures DeliveryLaw(h', n)
  {
    forall k | 0 <= k < |h.consumed|
      ensures Delivered(h', n, k)
    {
      assert Delivered(h, n, k);
      assert h.claims[SlotOf(k, n)] <= h'.claims[SlotOf(k, n)];
    }
  }

  lemma TicketsKept(s: State, s': State)
    requires 0 < |s.m.slots| == |s.h.claims| == |s'.m.slots|
    requires s'.h.claims == s.h.claims && s'.h.issued == s.h.issued && s'.m.writeIndex == s.m.writeIndex
    requires |s'.m.producers| == |s.m.producers|
    requires forall p :: 0 <= p < |s.m.producers| && s.m.producers[p].Claiming? ==>
               s'.m.producers[p] == s.m.producers[p]
    requires TicketsOk(s)
    ensures TicketsOk(s')
  {
    forall t | 0 <= t < |s.h.issued| ensures FateOk(s', t) {
      assert FateOk(s, t);
    }
    forall i, q | 0 <= i < |s.h.claims| && 0 <= q < |s.h.claims[i]| ensures ClaimOk(s', i, q) {
      assert ClaimOk(s, i, q);
    }
  }

  lemma TakeTicketKeepsInv(s: State, p: nat, msg: Message)
    requires Inv(s) && Enabled(s.m, TakeTicket(p, msg))
    ensures Inv(Step(s, TakeTicket(p, msg)))
  {
    var s' := Step(s, TakeTicket(p, msg));
    forall i | 0 <= i < |s.m.slots|
      ensures SlotOk(s'.m, i, s'.h.claims[i], Rounds(|s'.h.consumed|, i, |s.m.slots|))
    {
      SlotUntouchedByProducer(s.m, s'.m, p, i, s.h.claims[i], Rounds(|s.h.consumed|, i, |s.m.slots|));
    }
    forall p' | 0 <= p' < |s.m.producers| ensures ProducerOk(s', p') {
      assert ProducerOk(s, p');
    }
    DeliveryKept(s.h, s'.h, |s.m.slots|);
    forall t | 0 <= t < |s'.h.issued| ensures FateOk(s', t) {
      if t < |s.h.issued| { assert FateOk(s, t); }
    }
    forall i, q | 0 <= i < |s'.h.claims| && 0 <= q < |s'.h.claims[i]| ensures ClaimOk(s', i, q) {
      assert ClaimOk(s, i, q);
    }
  }

  lemma RejectOutcome(s: State, p: nat)
    requires |s.m.slots| > 0 && Enabled(s.m, Producer(p)) && s.m.producers[p].Claiming?
    requires s.m.slots[SlotOf(s.m.producers[p].index, |s.m.slots|)].state != EMPTY
    requires s.m.producers[p].index < |s.h.issued|
    ensures
      var t := s.m.producers[p].index;
      Step(s, Producer(p)) ==
      State(s.m.SetProducer(p, Idle), s.h.(issued := s.h.issued[t := s.h.issued[t].(fate := Burned)]))
  {
  }

  lemma RejectKeepsTickets(s: State, p: nat)
    requires Inv(s) && Enabled(s.m, Producer(p)) && s.m.producers[p].Claiming?
    requires s.m.slots[SlotOf(s.m.producers[p].index, |s.m.slots|)].state != EMPTY
    ensures TicketsOk(Step(s, Producer(p)))
  {
    var s' := Step(s, Producer(p));
    assert ProducerOk(s, p);
    forall t | 0 <= t < |s'.h.issued| ensures FateOk(s', t) {
      assert FateOk(s, t);
    }
    forall i, q | 0 <= i < |s'.h.claims| && 0 <= q < |s'.h.claims[i]| ensures ClaimOk(s', i, q) {
      assert ClaimOk(s, i, q);
    }
  }

  lemma RejectKeepsInv(s: State, p: nat)
    requires Inv(s) && Enabled(s.m, Producer(p)) && s.m.producers[p].Claiming?
    requires s.m.slots[SlotOf(s.m.producers[p].index, |s.m.slots|)].state != EMPTY
    ensures Inv(Step(s, Producer(p)))
  {
    var s' := Step(s, Producer(p));
    assert ProducerOk(s, p);
    RejectOutcome(s, p);
    forall i | 0 <= i < |s.m.slots|
      ensures SlotOk(s'.m, i, s'.h.claims[i], Rounds(|s'.h.consumed|, i, |s.m.slots|))
    {
      SlotUntouchedByProducer(s.m, s'.m, p, i, s.h.claims[i], Rounds(|s.h.consumed|, i, |s.m.slots|));
    }
    forall p' | 0 <= p' < |s.m.producers| ensures ProducerOk(s', p') {
      assert ProducerOk(s, p');
    }
    DeliveryKept(s.h, s'.h, |s.m.slots|);
    RejectKeepsTickets(s, p);
  }

  lemma ClaimKeepsTickets(s: State, p: nat)
    requires Inv(s) && Enabled(s.m, Producer(p)) && s.m.producers[p].Claiming?
    requires s.m.slots[SlotOf(s.m.producers[p].index, |s.m.slots|)].state == EMPTY
    ensures TicketsOk(Step(s, Producer(p)))
  {
    var s' := Step(s, Producer(p));
    assert ProducerOk(s, p);
    forall t | 0 <= t < |s'.h.issued| ensures FateOk(s', t) {
      assert FateOk(s, t);
    }
    forall i, q | 0 <= i < |s'.h.claims| && 0 <= q < |s'.h.claims[i]| ensures ClaimOk(s', i, q) {
      if q < |s.h.claims[i]| {
        assert ClaimOk(s, i, q);
      }
    }
  }

  lemma ClaimKeepsSlots(s: State, p: nat)
    requires Inv(s) && Enabled(s.m, Producer(p)) && s.m.producers[p].Claiming?
    requires s.m.slots[SlotOf(s.m.producers[p].index, |s.m.slots|)].state == EMPTY
    ensures |Step(s, Producer(p)).h.claims| == |s.m.slots| && SlotsOk(Step(s, Producer(p)))
  {
    var s' := Step(s, Producer(p));
    var i := SlotOf(s.m.producers[p].index, |s.m.slots|);
    assert ProducerOk(s, p);
    assert SlotOk(s.m, i, s.h.claims[i], Rounds(|s.h.consumed|, i, |s.m.slots|));
    forall j | 0 <= j < |s.m.slots|
      ensures SlotOk(s'.m, j, s'.h.claims[j], Rounds(|s'.h.consumed|, j, |s.m.slots|))
    {
      if j != i {
        SlotUntouchedByProducer(s.m, s'.m, p, j, s.h.claims[j], Rounds(|s.h.consumed|, j, |s.m.slots|));
      }
    }
  }

  lemma ClaimKeepsInv(s: State, p: nat)
    requires Inv(s) && Enabled(s.m, Producer(p)) && s.m.producers[p].Claiming?
    requires s.m.slots[SlotOf(s.m.producers[p].index, |s.m.slots|)].state == EMPTY
    ensures Inv(Step(s, Producer(p)))
  {
    var s' := Step(s, Producer(p));
    assert ProducerOk(s, p);
    ClaimKeepsSlots(s, p);
    forall p' | 0 <= p' < |s.m.producers| ensures ProducerOk(s', p') {
      assert ProducerOk(s, p');
    }
    DeliveryKept(s.h, s'.h, |s.m.slots|);
    ClaimKeepsTickets(s, p);
  }

  lemma FillOwnSlot(s: State, p: nat)
    requires Inv(s) && Enabled(s.m, Producer(p)) && s.m.producers[p].Filling()
    ensures
      var i := SlotOf(s.m.producers[p].index, |s.m.slots|);
      SlotOk(ProducerNext(s.m, p).0, i, s.h.claims[i], Rounds(|s.h.consumed|, i, |s.m.slots|))
  {
    var i := SlotOf(s.m.producers[p].index, |s.m.slots|);
    assert ProducerOk(s, p);
    assert SlotOk(s.m, i, s.h.claims[i], Rounds(|s.h.consumed|, i, |s.m.slots|));
  }

  lemma FillKeepsOwner(s: State, p: nat, p': nat)
    requires 0 < |s.m.slots| == |s.h.claims| && Enabled(s.m, Producer(p)) && s.m.producers[p].Filling()
    requires p' < |s.m.producers| && ProducerOk(s, p) && ProducerOk(s, p')
    ensures ProducerOk(Step(s, Producer(p)), p')
  {
  }

  lemma FillOwners(s: State, p: nat)
    requires 0 < |s.m.slots| == |s.h.claims| && ProducersOk(s)
    requires Enabled(s.m, Producer(p)) && s.m.producers[p].Filling()
    ensures ProducersOk(Step(s, Producer(p)))
  {
    forall p' | 0 <= p' < |s.m.producers| ensures ProducerOk(Step(s, Producer(p)), p') {
      FillKeepsOwner(s, p, p');
    }
  }

  lemma FillKeepsSlots(s: State, p: nat)
    requires Inv(s) && Enabled(s.m, Producer(p)) && s.m.producers[p].Filling()
    ensures SlotsOk(Step(s, Producer(p)))
  {
    var s' := Step(s, Producer(p));
    var i := SlotOf(s.m.producers[p].index, |s.m.slots|);
    FillOwnSlot(s, p);
    forall j | 0 <= j < |s.m.slots|
      ensures SlotOk(s'.m, j, s'.h.claims[j], Rounds(|s'.h.consumed|, j, |s.m.slots|))
    {
      if j != i {
        SlotUntouchedByProducer(s.m, s'.m, p, j, s.h.claims[j], Rounds(|s.h.consumed|, j, |s.m.slots|));
      }
    }
  }

  lemma FillKeepsInv(s: State, p: nat)
    requires Inv(s) && Enabled(s.m, Producer(p)) && s.m.producers[p].Filling()
    ensures Inv(Step(s, Producer(p)))
  {
    assert ProducerOk(s, p);
    FillKeepsSlots(s, p);
    FillOwners(s, p);
    TicketsKept(s, Step(s, Producer(p)));
  }

  lemma BeginPopKeepsInv(s: State, req: PopRequest)
    requires Inv(s) && Enabled(s.m, BeginPop(req))
    ensures Inv(Step(s, BeginPop(req)))
  {
    ConsumerStepKeepsRest(s, Step(s, BeginPop(req)), SlotOf(s.m.readIndex, |s.m.slots|));
  }

  /** What a consumer step that releases nothing need not establish itself. */
  lemma ConsumerStepKeepsRest(s: State, s': State, i: nat)
    requires Inv(s) && i < |s.m.slots| == |s'.m.slots|
    requires s'.h == s.h && s'.m.producers == s.m.producers && s'.m.writeIndex == s.m.writeIndex
    requires s'.m.slots == s.m.slots[i := s'.m.slots[i]] && s'.m.slots[i].state == s.m.slots[i].state
    requires s.m.consumer.Holding() ==> SlotOf(s.m.consumer.index, |s.m.slots|) == i
    requires s'.m.consumer.Holding() ==> SlotOf(s'.m.consumer.index, |s.m.slots|) == i
    requires SlotOk(s'.m, i, s.h.claims[i], Rounds(|s.h.consumed|, i, |s.m.slots|))
    requires ConsumerOk(s')
    ensures Inv(s')
  {
    forall j | 0 <= j < |s.m.slots|
      ensures SlotOk(s'.m, j, s'.h.claims[j], Rounds(|s'.h.consumed|, j, |s.m.slots|))
    {
      if j != i {
        SlotUntouchedByConsumer(s.m, s'.m, i, j, s.h.claims[j], Rounds(|s.h.consumed|, j, |s.m.slots|));
      }
    }
    forall p' | 0 <= p' < |s.m.producers| ensures ProducerOk(s', p') {
      assert ProducerOk(s, p');
    }
    TicketsKept(s, s');
  }

  /** Steps of a pop before and after it clears its slot: the slots stay as they are. */
  lemma ReadKeepsInv(s: State)
    requires Inv(s) && Enabled(s.m, Consumer)
    requires s.m.consumer.Probing? || s.m.consumer.ReadingHeader? || s.m.consumer.CopyingOut? || s.m.consumer.Advancing?
    ensures Inv(Step(s, Consumer))
  {
    var i := SlotOf(s.m.consumer.index, |s.m.slots|);
    assert SlotOk(s.m, i, s.h.claims[i], Rounds(|s.h.consumed|, i, |s.m.slots|));
    ConsumerStepKeepsRest(s, Step(s, Consumer), i);
  }

  lemma ClearKeepsInv(s: State)
    requires Inv(s) && Enabled(s.m, Consumer)
    requires s.m.consumer.ClearingType? || s.m.consumer.ClearingLength? || s.m.consumer.ClearingPayload?
    ensures Inv(Step(s, Consumer))
  {
    var i := SlotOf(s.m.consumer.index, |s.m.slots|);
    assert SlotOk(s.m, i, s.h.claims[i], Rounds(|s.h.consumed|, i, |s.m.slots|));
    ConsumerStepKeepsRest(s, Step(s, Consumer), i);
  }

  lemma ReleaseKeepsSlots(s: State)
    requires Inv(s) && Enabled(s.m, Consumer) && s.m.consumer.Releasing?
    ensures SlotsOk(Step(s, Consumer))
  {
    var s' := Step(s, Consumer);
    var n, c := |s.m.slots|, |s.h.consumed|;
    var i := SlotOf(c, n);
    assert SlotOk(s.m, i, s.h.claims[i], Rounds(c, i, n));
    forall j | 0 <= j < n
      ensures SlotOk(s'.m, j, s'.h.claims[j], Rounds(|s'.h.consumed|, j, n))
    {
      if j != i {
        SlotUntouchedByConsumer(s.m, s'.m, i, j, s.h.claims[j], Rounds(c, j, n));
      }
    }
  }

  lemma ReleaseKeepsInv(s: State)
    requires Inv(s) && Enabled(s.m, Consumer) && s.m.consumer.Releasing?
    ensures Inv(Step(s, Consumer))
  {
    var s' := Step(s, Consumer);
    var n, c := |s.m.slots|, |s.h.consumed|;
    ReleaseKeepsSlots(s);
    assert SlotOk(s.m, SlotOf(c, n), s.h.claims[SlotOf(c, n)], Rounds(c, SlotOf(c, n), n));
    forall p' | 0 <= p' < |s.m.producers| ensures ProducerOk(s', p') {
      assert ProducerOk(s, p');
    }
    forall k | 0 <= k < |s'.h.consumed| ensures Delivered(s'.h, n, k) {
      if k < c {
        assert Delivered(s.h, n, k);
      }
    }
    TicketsKept(s, s');
  }

  lemma StepKeepsInv(s: State, a: Action)
    requires Inv(s) && Enabled(s.m, a)
    ensures Inv(Step(s, a))
  {
    match a
    case TakeTicket(p, msg) => TakeTicketKeepsInv(s, p, msg);
    case Producer(p) =>
      if s.m.producers[p].Filling() {
        FillKeepsInv(s, p);
      } else if s.m.slots[SlotOf(s.m.producers[p].index, |s.m.slots|)].state == EMPTY {
        ClaimKeepsInv(s, p);
      } else {
        RejectKeepsInv(s, p);
      }
    case BeginPop(req) => BeginPopKeepsInv(s, req);
    case Consumer =>
      if s.m.consumer.Releasing? {
        ReleaseKeepsInv(s);
      } else if s.m.consumer.ClearingType? || s.m.consumer.ClearingLength? || s.m.consumer.ClearingPayload? {
        ClearKeepsInv(s);
      } else {
        ReadKeepsInv(s);
      }
  }

  lemma {:induction false} RunKeepsInv(s0: State, actions: seq<Action>, s1: State)
    requires Inv(s0) && Run(s0, actions, s1)
    ensures Inv(s1)
    ensures |s1.m.slots| == |s0.m.slots| && |s1.m.producers| == |s0.m.producers|
    decreases |actions|
  {
    if actions != [] {
      var last := |actions| - 1;
      var s :| Run(s0, actions[..last], s) && Steps(s, actions[last], s1);
      RunKeepsInv(s0, actions[..last], s);
      StepKeepsInv(s, actions[last]);
      NextKeepsShape(s.m, actions[last], 0);
    }
  }

  lemma ReachedInv(n: nat, producers: nat, s: State)
    requires n > 0 && Reaches(Init(n, producers), s)
    ensures Inv(s) && |s.m.slots| == n && |s.m.producers| == producers
  {
    var actions :| Run(Init(n, producers), actions, s);
    InitInv(n, producers);
    RunKeepsInv(Init(n, producers), actions, s);
  }
}
