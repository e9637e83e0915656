/**
  The shared-memory ring of hw4 as a machine: the shared words and slots, one program
  counter for each producer inside `try_push_message`, one for the consumer inside
  `try_pop_message`, and one step for each atomic operation or plain access.

  Steps interleave in a sequentially consistent order.  `wrap` is the modulus of the
  two indices; 0 stands for unbounded indices.
 */
module RingProtocol {
  import opened Sequences

  const QUEUE_CAPACITY: nat := 16
  const MAX_PAYLOAD_SIZE: nat := 256

  type Word = w: int | 0 <= w < 0x1_0000_0000

  // Message types, as stored in a header.
  const UNKNOWN: Word := 0
  const TEXT: Word := 1
  const NUMBER: Word := 2

  type Payload = s: seq<Byte> | |s| == MAX_PAYLOAD_SIZE witness Zeros(MAX_PAYLOAD_SIZE)

  datatype MessageBody = Message(typ: Word, data: seq<Byte>)

  /** A message whose length passes the check that opens `try_push_message`. */
  type Message = m: MessageBody | |m.data| <= MAX_PAYLOAD_SIZE witness Message(UNKNOWN, [])

  datatype Header = Header(typ: Word, length: Word)

  /** A header that passes the length checks of `try_pop_message`. */
  type FittingHeader = h: Header | h.length <= MAX_PAYLOAD_SIZE witness Header(UNKNOWN, 0)

  datatype SlotState = EMPTY | WRITING | READY

  datatype Slot = Slot(state: SlotState, header: Header, payload: Payload)

  function BlankSlot(): Slot
  {
    Slot(EMPTY, Header(UNKNOWN, 0), Zeros(MAX_PAYLOAD_SIZE))
  }

  function HeaderOf(msg: Message): FittingHeader
  {
    Header(msg.typ, |msg.data|)
  }

  /** `memcpy` of `data` to the start of a payload buffer. */
  function Overwrite(payload: Payload, data: seq<Byte>): Payload
    requires |data| <= MAX_PAYLOAD_SIZE
  {
    data + payload[|data|..]
  }

  function SlotOf(index: nat, n: nat): (i: nat)
    requires n > 0
    ensures i < n
  {
    index % n
  }

  function Succ(index: nat, wrap: nat): nat
  {
    if wrap == 0 then index + 1 else (index + 1) % wrap
  }

  datatype ProducerPc =
    | Idle
    | Claiming(index: nat, msg: Message)
    | WritingType(index: nat, msg: Message)
    | WritingLength(index: nat, msg: Message)
    | CopyingIn(index: nat, msg: Message)
    | Publishing(index: nat, msg: Message)
  {
    predicate Filling()
    {
      WritingType? || WritingLength? || CopyingIn? || Publishing?
    }

    /** The next step reads or writes the header or payload of the slot. */
    predicate Accesses()
    {
      WritingType? || WritingLength? || CopyingIn?
    }
  }

  datatype PopRequest = PopRequest(expected: Word, bufferSize: nat)

  datatype ConsumerPc =
    | Outside
    | Probing(req: PopRequest, index: nat)
    | ReadingHeader(req: PopRequest, index: nat)
    | CopyingOut(req: PopRequest, index: nat, header: FittingHeader)
    | ClearingType(req: PopRequest, index: nat, header: FittingHeader, out: seq<Byte>)
    | ClearingLength(req: PopRequest, index: nat, header: FittingHeader, out: seq<Byte>)
    | ClearingPayload(req: PopRequest, index: nat, header: FittingHeader, out: seq<Byte>)
    | Releasing(req: PopRequest, index: nat, header: FittingHeader, out: seq<Byte>)
    | Advancing(req: PopRequest, index: nat, header: FittingHeader, out: seq<Byte>)
  {
    /** The consumer has seen READY and has not yet stored EMPTY. */
    predicate Holding()
    {
      !Outside? && !Probing? && !Advancing?
    }

    predicate Accesses()
    {
      Holding() && !Releasing?
    }
  }

  datatype Machine = Machine(
    slots: seq<Slot>,
    writeIndex: nat,
    readIndex: nat,
    producers: seq<ProducerPc>,
    consumer: ConsumerPc)
  {
    function SetSlot(i: nat, slot: Slot): Machine
      requires i < |slots|
    {
      this.(slots := slots[i := slot])
    }

    function SetProducer(p: nat, pc: ProducerPc): Machine
      requires p < |producers|
    {
      this.(producers := producers[p := pc])
    }
  }

  /** What one step shows to the outside. */
  datatype Event =
    | Silent
    | Took(producer: nat, msg: Message)
    | Claimed(producer: nat, index: nat, msg: Message)
    | Rejected(producer: nat, index: nat)                 // the push returns false
    | Pushed(producer: nat)                               // the push returns true
    | PopNotReady                                         // the pop returns false, nothing consumed
    | PopTooLong(bufferSize: nat)                         // the pop returns false, nothing consumed
    | Released(req: PopRequest, header: Header, out: seq<Byte>)
    | PopReturned(matched: bool, header: Header, out: seq<Byte>)

  datatype Action =
    | TakeTicket(p: nat, msg: Message)    // a valid push starts: fetch_add on write_index
    | Producer(p: nat)                    // the next step of the push that producer p is in
    | BeginPop(req: PopRequest)           // a pop starts: load of read_index
    | Consumer                            // the next step of the pop in progress

  predicate Enabled(m: Machine, a: Action)
  {
    match a
    case TakeTicket(p, _) => p < |m.producers| && m.producers[p].Idle?
    case Producer(p) => p < |m.producers| && !m.producers[p].Idle?
    case BeginPop(_) => m.consumer.Outside?
    case Consumer => !m.consumer.Outside?
  }

  function ProducerNext(m: Machine, p: nat): (Machine, Event)
    requires |m.slots| > 0
    requires Enabled(m, Producer(p))
  {
    var pc := m.producers[p];
    var i := SlotOf(pc.index, |m.slots|);
    var slot := m.slots[i];
    match pc
    case Claiming(index, msg) =>
      if slot.state == EMPTY then
        (m.SetSlot(i, slot.(state := WRITING)).SetProducer(p, WritingType(index, msg)), Claimed(p, index, msg))
      else
        (m.SetProducer(p, Idle), Rejected(p, index))
    case WritingType(index, msg) =>
      (m.SetSlot(i, slot.(header := slot.header.(typ := msg.typ))).SetProducer(p, WritingLength(index, msg)), Silent)
    case WritingLength(index, msg) =>
      (m.SetSlot(i, slot.(header := slot.header.(length := |msg.data|))).SetProducer(p, CopyingIn(index, msg)), Silent)
    case CopyingIn(index, msg) =>
      (m.SetSlot(i, slot.(payload := Overwrite(slot.payload, msg.data))).SetProducer(p, Publishing(index, msg)), Silent)
    case Publishing(index, msg) =>
      (m.SetSlot(i, slot.(state := READY)).SetProducer(p, Idle), Pushed(p))
  }

  function ConsumerNext(m: Machine, wrap: nat): (Machine, Event)
    requires |m.slots| > 0
    requires Enabled(m, Consumer)
  {
    var i := SlotOf(m.consumer.index, |m.slots|);
    var slot := m.slots[i];
    match m.consumer
    case Probing(req, index) =>
      if slot.state == READY then
        (m.(consumer := ReadingHeader(req, index)), Silent)
      else
        (m.(consumer := Outside), PopNotReady)
    case ReadingHeader(req, index) =>
      if slot.header.length > MAX_PAYLOAD_SIZE || slot.header.length > req.bufferSize then
        (m.(consumer := Outside), PopTooLong(req.bufferSize))
      else
        (m.(consumer := CopyingOut(req, index, slot.header)), Silent)
    case CopyingOut(req, index, header) =>
      var out := if header.typ == req.expected then slot.payload[..header.length] else [];
      (m.(consumer := ClearingType(req, index, header, out)), Silent)
    case ClearingType(req, index, header, out) =>
      (m.SetSlot(i, slot.(header := slot.header.(typ := UNKNOWN)))
        .(consumer := ClearingLength(req, index, header, out)), Silent)
    case ClearingLength(req, index, header, out) =>
      (m.SetSlot(i, slot.(header := slot.header.(length := 0)))
        .(consumer := ClearingPayload(req, index, header, out)), Silent)
    case ClearingPayload(req, index, header, out) =>
      (m.SetSlot(i, slot.(payload := Zeros(MAX_PAYLOAD_SIZE)))
        .(consumer := Releasing(req, index, header, out)), Silent)
    case Releasing(req, index, header, out) =>
      (m.SetSlot(i, slot.(state := EMPTY))
        .(consumer := Advancing(req, index, header, out)), Released(req, header, out))
    case Advancing(req, index, header, out) =>
      (m.(readIndex := Succ(index, wrap), consumer := Outside),
       PopReturned(header.typ == req.expected, header, out))
  }

  function Next(m: Machine, a: Action, wrap: nat): (Machine, Event)
    requires |m.slots| > 0
    requires Enabled(m, a)
  {
    match a
    case TakeTicket(p, msg) =>
      (m.(writeIndex := Succ(m.writeIndex, wrap)).SetProducer(p, Claiming(m.writeIndex, msg)), Took(p, msg))
    case Producer(p) => ProducerNext(m, p)
    case BeginPop(req) => (m.(consumer := Probing(req, m.readIndex)), Silent)
    case Consumer => ConsumerNext(m, wrap)
  }

  // ---------- The history of a run ----------

  /** What became of a ticket: not yet used, lost to a failed CAS, or the `round`-th claim of a slot. */
  datatype Fate = Held | Burned | Won(slot: nat, round: nat)

  datatype Ticket = Ticket(producer: nat, msg: Message, fate: Fate)

  /** One successful CAS EMPTY -> WRITING. */
  datatype Claim = Claim(producer: nat, ticket: nat, msg: Message)

  /** What one pop took out of a slot. */
  datatype Consumed = Consumed(expected: Word, header: Header, out: seq<Byte>)

  datatype History = History(
    issued: seq<Ticket>,          // by ticket number
    claims: seq<seq<Claim>>,      // by slot, in CAS order
    consumed: seq<Consumed>)      // in the order the slots were released

  function Record(h: History, e: Event, n: nat): History
    requires n > 0
  {
    match e
    case Took(p, msg) => h.(issued := h.issued + [Ticket(p, msg, Held)])
    case Claimed(p, index, msg) =>
      var i := SlotOf(index, n);
      if i < |h.claims| && index < |h.issued| then
        h.(claims := h.claims[i := h.claims[i] + [Claim(p, index, msg)]],
           issued := h.issued[index := h.issued[index].(fate := Won(i, |h.claims[i]|))])
      else h
    case Rejected(_, index) =>
      if index < |h.issued| then
        h.(issued := h.issued[index := h.issued[index].(fate := Burned)])
      else h
    case Released(req, header, out) =>
      h.(consumed := h.consumed + [Consumed(req.expected, header, out)])
    case _ => h
  }

  datatype State = State(m: Machine, h: History)

  /** One step with unbounded indices, recorded. */
  function Step(s: State, a: Action): State
    requires |s.m.slots| > 0
    requires Enabled(s.m, a)
  {
    var (m, e) := Next(s.m, a, 0);
    State(m, Record(s.h, e, |s.m.slots|))
  }

  function Init(n: nat, producers: nat): State
  {
    State(
      Machine(seq(n, _ => BlankSlot()), 0, 0, seq(producers, _ => Idle), Outside),
      History([], seq(n, _ => []), []))
  }

  lemma NextKeepsShape(m: Machine, a: Action, wrap: nat)
    requires |m.slots| > 0
    requires Enabled(m, a)
    ensures |Next(m, a, wrap).0.slots| == |m.slots|
    ensures |Next(m, a, wrap).0.producers| == |m.producers|
  {
  }

  predicate Steps(s: State, a: Action, s': State)
  {
    |s.m.slots| > 0 && Enabled(s.m, a) && s' == Step(s, a)
  }

  /** `s1` is reached from `s0` by taking `actions` in order, each enabled when taken. */
  ghost predicate Run(s0: State, actions: seq<Action>, s1: State)
    decreases |actions|
  {
    if actions == [] then
      s1 == s0
    else
      var last := |actions| - 1;
      exists s :: Run(s0, actions[..last], s) && Steps(s, actions[last], s1)
  }

  /** Some run leads from `s0` to `s1`. */
  ghost predicate Reaches(s0: State, s1: State)
  {
    exists actions :: Run(s0, actions, s1)
  }

  lemma ReachesSelf(s: State)
    ensures Reaches(s, s)
  {
    assert Run(s, [], s);
  }

  lemma ReachesStep(s0: State, s: State, a: Action)
    requires Reaches(s0, s) && |s.m.slots| > 0 && Enabled(s.m, a)
    ensures Reaches(s0, Step(s, a))
  {
    var actions :| Run(s0, actions, s);
    assert (actions + [a])[..|actions|] == actions;
    assert Steps(s, a, Step(s, a));
    assert Run(s0, actions + [a], Step(s, a));
  }
}
