/**
  One push or pop run from start to end with no other thread stepping: what it does to
  the shared memory, and that it is what the ring machine does when one thread runs alone.
 */
module RingSequential {
  import opened RingProtocol
  import opened Sequences
  import opened RingRounds

  datatype Shared = Shared(slots: seq<Slot>, writeIndex: nat, readIndex: nat)

  datatype PopResult =
    | NotReady
    | TooLong
    | Popped(header: FittingHeader, out: seq<Byte>)

  function Push(q: Shared, msg: Message, wrap: nat): (r: (Shared, bool))
    requires |q.slots| > 0
  {
    var i := SlotOf(q.writeIndex, |q.slots|);
    var q' := q.(writeIndex := Succ(q.writeIndex, wrap));
    if q.slots[i].state == EMPTY then
      (q'.(slots := q.slots[i := Slot(READY, HeaderOf(msg), Overwrite(q.slots[i].payload, msg.data))]), true)
    else
      (q', false)
  }

  function Pop(q: Shared, req: PopRequest, wrap: nat): (r: (Shared, PopResult))
    requires |q.slots| > 0
  {
    var i := SlotOf(q.readIndex, |q.slots|);
    var slot := q.slots[i];
    if slot.state != READY then
      (q, NotReady)
    else if slot.header.length > MAX_PAYLOAD_SIZE || slot.header.length > req.bufferSize then
      (q, TooLong)
    else
      (q.(slots := q.slots[i := BlankSlot()], readIndex := Succ(q.readIndex, wrap)),
       Popped(slot.header, if slot.header.typ == req.expected then slot.payload[..slot.header.length] else []))
  }

  // ---------- A thread running alone ----------

  function SharedOf(m: Machine): Shared
  {
    Shared(m.slots, m.writeIndex, m.readIndex)
  }

  function PushStepsLeft(pc: ProducerPc): nat
  {
    match pc
    case Idle => 0
    case Claiming(_, _) => 5
    case WritingType(_, _) => 4
    case WritingLength(_, _) => 3
    case CopyingIn(_, _) => 2
    case Publishing(_, _) => 1
  }

  function FinishPush(m: Machine, p: nat): (Machine, Event)
    requires |m.slots| > 0 && Enabled(m, Producer(p))
    decreases PushStepsLeft(m.producers[p])
  {
    var (m', e) := ProducerNext(m, p);
    if m'.producers[p].Idle? then (m', e) else FinishPush(m', p)
  }

  function PopStepsLeft(pc: ConsumerPc): nat
  {
    match pc
    case Outside => 0
    case Probing(_, _) => 8
    case ReadingHeader(_, _) => 7
    case CopyingOut(_, _, _) => 6
    case ClearingType(_, _, _, _) => 5
    case ClearingLength(_, _, _, _) => 4
    case ClearingPayload(_, _, _, _) => 3
    case Releasing(_, _, _, _) => 2
    case Advancing(_, _, _, _) => 1
  }

  function FinishPop(m: Machine, wrap: nat): (Machine, Event)
    requires |m.slots| > 0 && Enabled(m, Consumer)
    decreases PopStepsLeft(m.consumer)
  {
    var (m', e) := ConsumerNext(m, wrap);
    if m'.consumer.Outside? then (m', e) else FinishPop(m', wrap)
  }

  /** From the claimed slot on, a push alone stores the message and publishes it. */
  lemma FinishClaimedPush(m: Machine, p: nat)
    requires |m.slots| > 0 && Enabled(m, Producer(p)) && m.producers[p].WritingType?
    ensures
      var i, msg := SlotOf(m.producers[p].index, |m.slots|), m.producers[p].msg;
      FinishPush(m, p) ==
      (m.(slots := m.slots[i := Slot(READY, HeaderOf(msg), Overwrite(m.slots[i].payload, msg.data))],
          producers := m.producers[p := Idle]),
       Pushed(p))
  {
    var i, msg := SlotOf(m.producers[p].index, |m.slots|), m.producers[p].msg;
    var m1 := ProducerNext(m, p).0;
    var m2 := ProducerNext(m1, p).0;
    var m3 := ProducerNext(m2, p).0;
    var m4 := ProducerNext(m3, p).0;
    assert m4.slots == m.slots[i := Slot(READY, HeaderOf(msg), Overwrite(m.slots[i].payload, msg.data))];
    assert m4.producers == m.producers[p := Idle];
    assert FinishPush(m3, p) == (m4, Pushed(p));
    assert FinishPush(m2, p) == FinishPush(m3, p);
    assert FinishPush(m1, p) == FinishPush(m2, p);
  }

  lemma SoloPush(m: Machine, p: nat, msg: Message, wrap: nat)
    requires |m.slots| > 0 && Enabled(m, TakeTicket(p, msg))
    ensures
      var (m', e) := FinishPush(Next(m, TakeTicket(p, msg), wrap).0, p);
      var (q, ok) := Push(SharedOf(m), msg, wrap);
      && SharedOf(m') == q
      && m'.producers == m.producers && m'.consumer == m.consumer
      && e == (if ok then Pushed(p) else Rejected(p, m.writeIndex))
  {
    var m0 := Next(m, TakeTicket(p, msg), wrap).0;
    var m1 := ProducerNext(m0, p).0;
    assert m0.producers[p := Idle] == m.producers;
    if m1.producers[p].WritingType? {
      FinishClaimedPush(m1, p);
      assert m1.producers[p := Idle] == m.producers;
    }
  }

  /** From the copied-out message on, a pop alone blanks the slot and advances. */
  lemma FinishHeldPop(m: Machine, wrap: nat)
    requires |m.slots| > 0 && m.consumer.ClearingType? && m.consumer.index == m.readIndex
    ensures
      var i, pc := SlotOf(m.readIndex, |m.slots|), m.consumer;
      FinishPop(m, wrap) ==
      (m.(slots := m.slots[i := BlankSlot()], readIndex := Succ(m.readIndex, wrap), consumer := Outside),
       PopReturned(pc.header.typ == pc.req.expected, pc.header, pc.out))
  {
    var m1 := ConsumerNext(m, wrap).0;
    var m2 := ConsumerNext(m1, wrap).0;
    var m3 := ConsumerNext(m2, wrap).0;
    var m4 := ConsumerNext(m3, wrap).0;
    var i := SlotOf(m.readIndex, |m.slots|);
    assert m4.slots == m.slots[i := BlankSlot()];
    assert FinishPop(m4, wrap) == ConsumerNext(m4, wrap);
    assert FinishPop(m3, wrap) == FinishPop(m4, wrap);
    assert FinishPop(m2, wrap) == FinishPop(m3, wrap);
    assert FinishPop(m1, wrap) == FinishPop(m2, wrap);
  }

  /** The caller sees `true` exactly when a message was taken and its type is the one asked for. */
  function ReturnOf(req: PopRequest, r: PopResult): Event
  {
    match r
    case NotReady => PopNotReady
    case TooLong => PopTooLong(req.bufferSize)
    case Popped(header, out) => PopReturned(header.typ == req.expected, header, out)
  }

  lemma SoloPop(m: Machine, req: PopRequest, wrap: nat)
    requires |m.slots| > 0 && Enabled(m, BeginPop(req))
    ensures
      var (m', e) := FinishPop(Next(m, BeginPop(req), wrap).0, wrap);
      var (q, r) := Pop(SharedOf(m), req, wrap);
      && SharedOf(m') == q
      && m'.producers == m.producers && m'.consumer.Outside?
      && e == ReturnOf(req, r)
  {
    var m0 := Next(m, BeginPop(req), wrap).0;
    var m1 := ConsumerNext(m0, wrap).0;
    if m1.consumer.ReadingHeader? {
      var m2 := ConsumerNext(m1, wrap).0;
      if m2.consumer.CopyingOut? {
        var m3 := ConsumerNext(m2, wrap).0;
        FinishHeldPop(m3, wrap);
        assert FinishPop(m2, wrap) == FinishPop(m3, wrap);
      }
      assert FinishPop(m0, wrap) == FinishPop(m1, wrap);
    }
  }

  // ---------- Operations one after another ----------

  datatype Op = PushOp(msg: Message) | PopOp(req: PopRequest)

  function Do(q: Shared, op: Op): Shared
    requires |q.slots| > 0
  {
    match op
    case PushOp(msg) => Push(q, msg, 0).0
    case PopOp(req) => Pop(q, req, 0).0
  }

  /** The operations in order, each run to its end before the next starts. */
  function After(q: Shared, ops: seq<Op>): Shared
    requires |q.slots| > 0
    ensures |After(q, ops).slots| == |q.slots|
    decreases |ops|
  {
    if ops == [] then q else Do(After(q, ops[..|ops| - 1]), ops[|ops| - 1])
  }

  function Pushes(ops: seq<Op>): seq<Message>
  {
    if ops == [] then []
    else Pushes(ops[..|ops| - 1]) + match ops[|ops| - 1] { case PushOp(msg) => [msg] case PopOp(_) => [] }
  }

  /** The steps of one push alone, as a run. */
  lemma {:induction false} FinishPushRun(s0: State, s: State, p: nat) returns (s': State)
    requires Reaches(s0, s) && |s.m.slots| > 0 && Enabled(s.m, Producer(p))
    ensures Reaches(s0, s') && s'.m == FinishPush(s.m, p).0
    decreases PushStepsLeft(s.m.producers[p])
  {
    s' := Step(s, Producer(p));
    ReachesStep(s0, s, Producer(p));
    if !s'.m.producers[p].Idle? {
      s' := FinishPushRun(s0, s', p);
    }
  }

  lemma {:induction false} FinishPopRun(s0: State, s: State) returns (s': State)
    requires Reaches(s0, s) && |s.m.slots| > 0 && Enabled(s.m, Consumer)
    ensures Reaches(s0, s') && s'.m == FinishPop(s.m, 0).0
    decreases PopStepsLeft(s.m.consumer)
  {
    s' := Step(s, Consumer);
    ReachesStep(s0, s, Consumer);
    if !s'.m.consumer.Outside? {
      s' := FinishPopRun(s0, s');
    }
  }

  /** Nobody is inside an operation, and the shared memory is `q`. */
  predicate Quiet(m: Machine, q: Shared)
  {
    SharedOf(m) == q && m.consumer.Outside? && forall p :: 0 <= p < |m.producers| ==> m.producers[p].Idle?
  }

  /** Whatever operations one after another do, some run of the machine does. */
  lemma {:induction false} OperationsAreRuns(n: nat, producers: nat, ops: seq<Op>) returns (s: State)
    requires n > 0 && producers > 0
    ensures Reaches(Init(n, producers), s) && |s.m.producers| == producers
    ensures Quiet(s.m, After(SharedOf(Init(n, producers).m), ops))
    decreases |ops|
  {
    var s0 := Init(n, producers);
    if ops == [] {
      s := s0;
      ReachesSelf(s0);
    } else {
      var before := OperationsAreRuns(n, producers, ops[..|ops| - 1]);
      match ops[|ops| - 1]
      case PushOp(msg) =>
        ReachesStep(s0, before, TakeTicket(0, msg));
        s := FinishPushRun(s0, Step(before, TakeTicket(0, msg)), 0);
        SoloPush(before.m, 0, msg, 0);
      case PopOp(req) =>
        ReachesStep(s0, before, BeginPop(req));
        s := FinishPopRun(s0, Step(before, BeginPop(req)));
        SoloPop(before.m, req, 0);
    }
  }

  // ---------- The cost of burned tickets ----------

  predicate AllBlank(q: Shared)
  {
    forall i :: 0 <= i < |q.slots| ==> q.slots[i] == BlankSlot()
  }

  /** `d` is how many pushes it takes from `q` to reach the slot the consumer waits at. */
  predicate Distance(q: Shared, d: nat)
    requires |q.slots| > 0
  {
    0 < d < |q.slots| && SlotOf(q.writeIndex + d, |q.slots|) == SlotOf(q.readIndex, |q.slots|)
  }

  lemma DistanceIsGap(q: Shared, k: nat)
    requires |q.slots| > 0 && q.readIndex <= q.writeIndex
    requires 0 < k < |q.slots| && SlotOf(q.writeIndex - q.readIndex, |q.slots|) == k
    ensures Distance(q, |q.slots| - k)
  {
    var n := |q.slots|;
    var gap := q.writeIndex - q.readIndex;
    TicketSplits(gap, n);
    SlotsShift(q.readIndex, gap / n + 1, n);
    TicketAtNext(q.readIndex, gap / n, n);
    TicketAtNext(k, gap / n, n);
  }

  /** The slot that index `base + j` names. */
  function SlotFrom(q: Shared, base: nat, j: nat): Slot
    requires |q.slots| > 0
  {
    q.slots[SlotOf(base + j, |q.slots|)]
  }

  predicate Holds(slot: Slot, msg: Message)
  {
    slot.state == READY && slot.header == HeaderOf(msg) && slot.payload[..|msg.data|] == msg.data
  }

  /** `q` is `q0` with `msgs` pushed into successive blank slots and nothing popped. */
  predicate Stuck(q0: Shared, q: Shared, msgs: seq<Message>)
    requires |q0.slots| > 0
  {
    && |q.slots| == |q0.slots| && q.readIndex == q0.readIndex && q.writeIndex == q0.writeIndex + |msgs|
    && (forall j :: 0 <= j < |msgs| ==> Holds(SlotFrom(q, q0.writeIndex, j), msgs[j]))
    && (forall j :: |msgs| <= j < |q0.slots| ==> SlotFrom(q, q0.writeIndex, j) == BlankSlot())
  }

  lemma PushStuck(q0: Shared, q: Shared, msgs: seq<Message>, msg: Message)
    requires |q0.slots| > 0 && Stuck(q0, q, msgs) && |msgs| < |q0.slots|
    ensures Push(q, msg, 0).1
    ensures Stuck(q0, Push(q, msg, 0).0, msgs + [msg])
  {
    var n, w := |q0.slots|, q0.writeIndex;
    var q' := Push(q, msg, 0).0;
    assert SlotFrom(q, w, |msgs|) == BlankSlot();
    forall j | 0 <= j < n && j != |msgs|
      ensures SlotFrom(q', w, j) == SlotFrom(q, w, j)
    {
      if j < |msgs| {
        SlotsDiffer(w + j, w + |msgs|, n);
      } else {
        SlotsDiffer(w + |msgs|, w + j, n);
      }
    }
  }

  lemma PopStalls(q0: Shared, d: nat, q: Shared, msgs: seq<Message>, req: PopRequest)
    requires |q0.slots| > 0 && Distance(q0, d) && Stuck(q0, q, msgs) && |msgs| <= d
    ensures Pop(q, req, 0) == (q, NotReady)
  {
    assert SlotFrom(q, q0.writeIndex, d) == BlankSlot();
  }

  lemma {:induction false} StuckAfter(q: Shared, d: nat, ops: seq<Op>)
    requires |q.slots| > 0 && AllBlank(q) && Distance(q, d)
    requires |Pushes(ops)| <= d
    ensures Stuck(q, After(q, ops), Pushes(ops))
    decreases |ops|
  {
    if ops != [] {
      var before := ops[..|ops| - 1];
      StuckAfter(q, d, before);
      match ops[|ops| - 1]
      case PushOp(m) => PushStuck(q, After(q, before), Pushes(before), m);
      case PopOp(r) => PopStalls(q, d, After(q, before), Pushes(before), r);
    }
  }

  /**
    After tickets were burned the ring can be quiet and all EMPTY with its indices out of
    step.  Then, until `d` pushes have gone in, every push succeeds and every pop, however
    the two are mixed, finds its slot not ready and changes nothing.
   */
  lemma BurnedTicketsStallPops(q: Shared, d: nat, ops: seq<Op>, msg: Message, req: PopRequest)
    requires |q.slots| > 0 && AllBlank(q) && Distance(q, d)
    requires |Pushes(ops)| <= d
    ensures Push(After(q, ops), msg, 0).1
    ensures Pop(After(q, ops), req, 0) == (After(q, ops), NotReady)
    ensures After(q, ops).readIndex == q.readIndex
  {
    StuckAfter(q, d, ops);
    PushStuck(q, After(q, ops), Pushes(ops), msg);
    PopStalls(q, d, After(q, ops), Pushes(ops), req);
  }

  /** The push after those `d` is the first one the consumer can see, and it overtakes them all. */
  lemma NextPushIsPoppedFirst(q: Shared, d: nat, ops: seq<Op>, msg: Message, req: PopRequest)
    requires |q.slots| > 0 && AllBlank(q) && Distance(q, d)
    requires |Pushes(ops)| == d && req.bufferSize >= |msg.data|
    ensures
      var (q', ok) := Push(After(q, ops), msg, 0);
      ok && Pop(q', req, 0).1 == Popped(HeaderOf(msg), if msg.typ == req.expected then msg.data else [])
  {
    StuckAfter(q, d, ops);
    var q1 := After(q, ops);
    PushStuck(q, q1, Pushes(ops), msg);
    assert Stuck(q, Push(q1, msg, 0).0, Pushes(ops) + [msg]);
    assert Holds(SlotFrom(Push(q1, msg, 0).0, q.writeIndex, d), msg);
  }

  // ---------- Draining ----------

  /** The first `k` slots of the run are blank and the others as they were. */
  predicate SlotsDrained(q0: Shared, q: Shared, k: nat)
    requires 0 < |q0.slots| == |q.slots|
  {
    && (forall j :: 0 <= j < k ==> SlotFrom(q, q0.readIndex, j) == BlankSlot())
    && (forall j :: k <= j < |q0.slots| ==> SlotFrom(q, q0.readIndex, j) == SlotFrom(q0, q0.readIndex, j))
  }

  lemma BlankedSlotDrains(q0: Shared, q: Shared, k: nat, q': Shared)
    requires k < |q0.slots| == |q.slots| && SlotsDrained(q0, q, k)
    requires q'.slots == q.slots[SlotOf(q0.readIndex + k, |q0.slots|) := BlankSlot()]
    ensures SlotsDrained(q0, q', k + 1)
  {
    var n, r0 := |q0.slots|, q0.readIndex;
    forall j | 0 <= j < n && j != k
      ensures SlotFrom(q', r0, j) == SlotFrom(q, r0, j)
    {
      if j < k {
        SlotsDiffer(r0 + j, r0 + k, n);
      } else {
        SlotsDiffer(r0 + k, r0 + j, n);
      }
    }
  }
}
