/** What tickets burned in a run cost once the ring has come to rest empty. */
module RingBurned {
  import opened RingProtocol
  import opened RingRounds
  import opened RingInvariant
  import opened RingDelivery
  import opened RingSequential
  import opened Sums

  /** No push or pop is in progress and every slot is EMPTY. */
  predicate AtRest(m: Machine)
  {
    && m.consumer.Outside?
    && (forall p :: 0 <= p < |m.producers| ==> m.producers[p].Idle?)
    && (forall i :: 0 <= i < |m.slots| ==> m.slots[i].state == EMPTY)
  }

  /** At rest the indices are apart by exactly the number of tickets burned, and all slots are blank. */
  lemma RestGapIsBurned(n: nat, producers: nat, actions: seq<Action>, s: State)
    requires n > 0 && Run(Init(n, producers), actions, s) && AtRest(s.m)
    ensures s.m.writeIndex == s.m.readIndex + TicketsBurned(s.h)
    ensures |s.m.slots| == n && AllBlank(SharedOf(s.m))
  {
    TicketAccounting(n, producers, actions, s);
    TotalZero(ClaimingWeight(), s.m.producers);
    TotalZero(StateWeight(WRITING), s.m.slots);
    TotalZero(StateWeight(READY), s.m.slots);
    InitInv(n, producers);
    RunKeepsInv(Init(n, producers), actions, s);
    forall i | 0 <= i < n ensures s.m.slots[i] == BlankSlot() {
      assert SlotOk(s.m, i, s.h.claims[i], Rounds(|s.h.consumed|, i, n));
    }
  }

  /**
    A blank ring whose indices are apart by `b` burned tickets, as `RestGapIsBurned` finds
    it after any run, with `b mod n = k` not 0: while up to `n - k` messages are pushed,
    every push succeeds and every pop, in any mix, finds nothing and changes nothing; the
    push after them is the first one a pop returns.
   */
  lemma BurnedTicketsCost(q0: Shared, b: nat, ops: seq<Op>, msg: Message, req: PopRequest)
    requires |q0.slots| > 0 && AllBlank(q0) && q0.writeIndex == q0.readIndex + b
    requires SlotOf(b, |q0.slots|) != 0 && |Pushes(ops)| <= |q0.slots| - SlotOf(b, |q0.slots|)
    requires req.bufferSize >= |msg.data|
    ensures
      var q := After(q0, ops);
      var (q', ok) := Push(q, msg, 0);
      && ok
      && Pop(q, req, 0) == (q, NotReady)
      && (|Pushes(ops)| == |q0.slots| - SlotOf(b, |q0.slots|) ==>
            Pop(q', req, 0).1 == Popped(HeaderOf(msg), if msg.typ == req.expected then msg.data else []))
  {
    var k := SlotOf(b, |q0.slots|);
    var d := |q0.slots| - k;
    DistanceIsGap(q0, k);
    BurnedTicketsStallPops(q0, d, ops, msg, req);
    if |Pushes(ops)| == d {
      NextPushIsPoppedFirst(q0, d, ops, msg, req);
    }
  }

  // ---------- When the next push is seen at once ----------

  lemma AlignedSlot(index: nat, b: nat, n: nat)
    requires n > 0 && SlotOf(b, n) == 0
    ensures SlotOf(index + b, n) == SlotOf(index, n)
  {
    TicketSplits(b, n);
    SlotsShift(index, b / n, n);
  }

  lemma OnePush(q0: Shared, msg: Message)
    requires |q0.slots| > 0
    ensures After(q0, [PushOp(msg)]) == Push(q0, msg, 0).0 && Pushes([PushOp(msg)]) == [msg]
  {
    var ops := [PushOp(msg)];
    assert ops[..0] == [];
    assert Pushes(ops[..0]) == [] && After(q0, ops[..0]) == q0;
  }

  /** In a ring at rest the next message pushed is the one the next pop takes if and only if n divides b. */
  lemma SeenAtOnceIffAligned(q0: Shared, b: nat, msg: Message, req: PopRequest)
    requires |q0.slots| > 0 && AllBlank(q0) && q0.writeIndex == q0.readIndex + b
    requires req.bufferSize >= |msg.data|
    ensures
      var (q, ok) := Push(q0, msg, 0);
      && ok
      && Pop(q, req, 0).1 ==
         if SlotOf(b, |q0.slots|) == 0
         then Popped(HeaderOf(msg), if msg.typ == req.expected then msg.data else [])
         else NotReady
  {
    if SlotOf(b, |q0.slots|) == 0 {
      AlignedSlot(q0.readIndex, b, |q0.slots|);
    } else {
      OnePush(q0, msg);
      BurnedTicketsCost(q0, b, [PushOp(msg)], msg, req);
      BurnedTicketsCost(q0, b, [], msg, req);
    }
  }

  /** The same of the ring as any run leaves it, in terms of the tickets that run has burned. */
  lemma NextPushSeenIffAligned(n: nat, producers: nat, actions: seq<Action>, s: State, msg: Message, req: PopRequest)
    requires n > 0 && Run(Init(n, producers), actions, s) && AtRest(s.m)
    requires req.bufferSize >= |msg.data|
    ensures |s.m.slots| == n
    ensures
      var (q, ok) := Push(SharedOf(s.m), msg, 0);
      ok && (Pop(q, req, 0).1 != NotReady <==> SlotOf(TicketsBurned(s.h), n) == 0)
  {
    RestGapIsBurned(n, producers, actions, s);
    SeenAtOnceIffAligned(SharedOf(s.m), TicketsBurned(s.h), msg, req);
  }

  // ---------- Every number of burned tickets is reached ----------

  lemma AfterSnoc(q: Shared, ops: seq<Op>, op: Op)
    requires |q.slots| > 0
    ensures After(q, ops + [op]) == Do(After(q, ops), op)
  {
    assert (ops + [op])[..|ops|] == ops;
  }

  lemma SmallSlot(j: nat, n: nat)
    requires j < n
    ensures SlotOf(j, n) == j
  {
    TicketAtUnique(j, 0, n);
  }

  predicate AllReady(q: Shared, msg: Message)
  {
    forall i :: 0 <= i < |q.slots| ==> Holds(q.slots[i], msg)
  }

  lemma {:induction false} FillSome(q: Shared, msg: Message, k: nat) returns (ops: seq<Op>, msgs: seq<Message>)
    requires |q.slots| > 0 && AllBlank(q) && k <= |q.slots|
    ensures |msgs| == k && (forall j :: 0 <= j < k ==> msgs[j] == msg)
    ensures Stuck(q, After(q, ops), msgs)
  {
    if k == 0 {
      ops, msgs := [], [];
    } else {
      ops, msgs := FillSome(q, msg, k - 1);
      PushStuck(q, After(q, ops), msgs, msg);
      AfterSnoc(q, ops, PushOp(msg));
      ops, msgs := ops + [PushOp(msg)], msgs + [msg];
    }
  }

  lemma FillAll(q: Shared, msg: Message) returns (ops: seq<Op>)
    requires |q.slots| > 0 && AllBlank(q) && q.writeIndex == 0
    ensures AllReady(After(q, ops), msg)
    ensures After(q, ops).writeIndex == |q.slots| && After(q, ops).readIndex == q.readIndex
  {
    var msgs;
    ops, msgs := FillSome(q, msg, |q.slots|);
    forall i | 0 <= i < |q.slots| ensures Holds(After(q, ops).slots[i], msg) {
      SmallSlot(i, |q.slots|);
      assert Holds(SlotFrom(After(q, ops), 0, i), msgs[i]);
    }
  }

  /** Pushing into a full ring burns tickets. */
  lemma {:induction false} BurnSome(q: Shared, full: seq<Op>, msg: Message, b: nat) returns (ops: seq<Op>)
    requires |q.slots| > 0 && AllReady(After(q, full), msg)
    ensures After(q, ops) == After(q, full).(writeIndex := After(q, full).writeIndex + b)
  {
    if b == 0 {
      ops := full;
    } else {
      ops := BurnSome(q, full, msg, b - 1);
      AfterSnoc(q, ops, PushOp(msg));
      var q' := After(q, ops);
      assert Holds(q'.slots[SlotOf(q'.writeIndex, |q'.slots|)], msg);
      ops := ops + [PushOp(msg)];
    }
  }

  lemma {:induction false} DrainSome(q: Shared, full: seq<Op>, msg: Message, req: PopRequest, k: nat)
    returns (ops: seq<Op>)
    requires |q.slots| > 0 && AllReady(After(q, full), msg) && After(q, full).readIndex == 0
    requires k <= |q.slots| && req.bufferSize >= |msg.data|
    ensures SlotsDrained(After(q, full), After(q, ops), k)
    ensures After(q, ops).readIndex == k && After(q, ops).writeIndex == After(q, full).writeIndex
  {
    if k == 0 {
      ops := full;
    } else {
      ops := DrainSome(q, full, msg, req, k - 1);
      AfterSnoc(q, ops, PopOp(req));
      var q1, q' := After(q, full), After(q, ops);
      assert SlotFrom(q', 0, k - 1) == SlotFrom(q1, 0, k - 1);
      BlankedSlotDrains(q1, q', k - 1, Pop(q', req, 0).0);
      ops := ops + [PopOp(req)];
    }
  }

  lemma BurnsAndDrains(n: nat, b: nat) returns (ops: seq<Op>)
    requires n > 0
    ensures
      var q := After(SharedOf(Init(n, 1).m), ops);
      AllBlank(q) && q.readIndex == n && q.writeIndex == n + b
  {
    var q0, msg := SharedOf(Init(n, 1).m), Message(TEXT, []);
    var filled := FillAll(q0, msg);
    var full := BurnSome(q0, filled, msg, b);
    ops := DrainSome(q0, full, msg, PopRequest(TEXT, 0), n);
    forall i | 0 <= i < n ensures After(q0, ops).slots[i] == BlankSlot() {
      SmallSlot(i, n);
      assert SlotFrom(After(q0, ops), 0, i) == BlankSlot();
    }
  }

  /** For every `b` some run comes to rest, empty, with `b` tickets burned: one producer is enough. */
  lemma EveryBurnCountIsReached(n: nat, b: nat) returns (actions: seq<Action>, s: State)
    requires n > 0
    ensures Run(Init(n, 1), actions, s) && AtRest(s.m) && TicketsBurned(s.h) == b
  {
    var ops := BurnsAndDrains(n, b);
    s := OperationsAreRuns(n, 1, ops);
    actions :| Run(Init(n, 1), actions, s);
    RestGapIsBurned(n, 1, actions, s);
  }
}
