/**
  The shared-memory queue of hw4 as an object in memory, and the consumer program's
  drain loop over it.
 */
module RingQueue {
  import opened RingProtocol
  import opened Sequences
  import opened RingRounds
  import opened RingSequential
  import opened RingWrap

  const PROTOCOL_MAGIC: Word := 0x48573431
  const PROTOCOL_VERSION: Word := 1

  datatype Meta = Meta(magic: Word, version: Word, capacity: Word, maxPayloadSize: Word)

  const EXPECTED_META := Meta(PROTOCOL_MAGIC, PROTOCOL_VERSION, QUEUE_CAPACITY, MAX_PAYLOAD_SIZE)

  /** The caller's `MessageHeader` variable. */
  class HeaderCell {
    var header: Header

    constructor ()
      ensures header == Header(UNKNOWN, 0)
    {
      header := Header(UNKNOWN, 0);
    }
  }

  class SharedQueue {
    var meta: Meta
    var writeIndex: nat
    var readIndex: nat
    const slots: array<Slot>

    ghost predicate Valid()
      reads this
    {
      slots.Length == QUEUE_CAPACITY && writeIndex < INDEX_MODULUS && readIndex < INDEX_MODULUS
    }

    ghost function View(): Shared
      reads this, slots
    {
      Shared(slots[..], writeIndex, readIndex)
    }

    /** The mapped region before anyone has initialised it: any contents. */
    constructor (region: seq<Slot>, meta: Meta, writeIndex: nat, readIndex: nat)
      requires |region| == QUEUE_CAPACITY && writeIndex < INDEX_MODULUS && readIndex < INDEX_MODULUS
      ensures Valid() && fresh(slots)
      ensures View() == Shared(region, writeIndex, readIndex) && this.meta == meta
    {
      this.slots := new Slot[QUEUE_CAPACITY](i requires 0 <= i < QUEUE_CAPACITY => region[i]);
      this.meta := meta;
      this.writeIndex := writeIndex;
      this.readIndex := readIndex;
    }

    method InitQueue()
      requires Valid()
      modifies this, slots
      ensures Valid() && meta == Meta(0x48573431, 1, 16, 256)
      ensures View() == SharedOf(Init(QUEUE_CAPACITY, 0).m)
    {
      meta := EXPECTED_META;
      writeIndex := 0;
      readIndex := 0;
      var i := 0;
      while i < QUEUE_CAPACITY
        invariant 0 <= i <= QUEUE_CAPACITY
        invariant Valid() && meta == EXPECTED_META && writeIndex == 0 && readIndex == 0
        invariant forall j :: 0 <= j < i ==> slots[j] == BlankSlot()
      {
        slots[i] := slots[i].(state := EMPTY);
        slots[i] := slots[i].(header := slots[i].header.(typ := UNKNOWN));
        slots[i] := slots[i].(header := slots[i].header.(length := 0));
        slots[i] := slots[i].(payload := Zeros(MAX_PAYLOAD_SIZE));
        i := i + 1;
      }
    }

    method IsQueueValid() returns (ok: bool)
      ensures ok <==> meta == Meta(0x48573431, 1, 16, 256)
    {
      if meta.magic != PROTOCOL_MAGIC {
        return false;
      }
      if meta.version != PROTOCOL_VERSION {
        return false;
      }
      if meta.capacity != QUEUE_CAPACITY {
        return false;
      }
      if meta.maxPayloadSize != MAX_PAYLOAD_SIZE {
        return false;
      }
      return true;
    }

    /** Returns true exactly when the message was stored; a bad argument touches nothing. */
    method TryPush(typ: Word, data: array?<Byte>, length: nat) returns (ok: bool)
      requires Valid()
      requires data != null && length <= 256 ==> length <= data.Length
      modifies this, slots
      ensures Valid() && meta == old(meta)
      ensures data == null || length > 256 ==> !ok && View() == old(View())
      ensures data != null && length <= 256 ==>
                (View(), ok) == Push(old(View()), Message(typ, old(data[..length])), INDEX_MODULUS)
    {
      if data == null {
        return false;
      }
      if length > MAX_PAYLOAD_SIZE {
        return false;
      }
      ghost var before := View();
      var bytes := data[..length];
      var index := writeIndex;
      writeIndex := Succ(writeIndex, INDEX_MODULUS);
      var i := SlotOf(index, QUEUE_CAPACITY);
      if slots[i].state != EMPTY {
        return false;
      }
      slots[i] := slots[i].(state := WRITING);
      slots[i] := slots[i].(header := slots[i].header.(typ := typ));
      slots[i] := slots[i].(header := slots[i].header.(length := length));
      if length > 0 {
        slots[i] := slots[i].(payload := Overwrite(slots[i].payload, bytes));
      }
      slots[i] := slots[i].(state := READY);
      assert slots[i].payload == Overwrite(before.slots[i].payload, bytes);
      assert slots[..] == before.slots[i := slots[i]];
      return true;
    }

    /** Returns true exactly when a message of the expected type was taken and handed over. */
    method TryPop(expected: Word, outBuffer: array?<Byte>, bufferSize: nat, outHeader: HeaderCell?) returns (ok: bool)
      requires Valid()
      requires outBuffer != null ==> bufferSize <= outBuffer.Length
      modifies this, slots, outBuffer, outHeader
      ensures Valid() && meta == old(meta) && writeIndex == old(writeIndex)
      ensures outBuffer == null || outHeader == null ==> !ok && View() == old(View())
      ensures outBuffer != null && outHeader != null ==>
                var (q, r) := Pop(old(View()), PopRequest(expected, bufferSize), INDEX_MODULUS);
                && View() == q
                && (ok <==> r.Popped? && r.header.typ == expected)
                && (ok ==>
                      && |r.out| == r.header.length <= outBuffer.Length
                      && outHeader.header == r.header
                      && outBuffer[..] == r.out + old(outBuffer[..])[|r.out|..])
      ensures !ok && outBuffer != null ==> outBuffer[..] == old(outBuffer[..])
      ensures !ok && outHeader != null ==> outHeader.header == old(outHeader.header)
    {
      if outBuffer == null || outHeader == null {
        return false;
      }
      ghost var before := View();
      var index := readIndex;
      var i := SlotOf(index, QUEUE_CAPACITY);
      if slots[i].state != READY {
        return false;
      }
      var header := slots[i].header;
      if header.length > MAX_PAYLOAD_SIZE {
        return false;
      }
      if header.length > bufferSize {
        return false;
      }
      if header.typ == expected {
        var payload := slots[i].payload;
        forall b | 0 <= b < header.length {
          outBuffer[b] := payload[b];
        }
        outHeader.header := header;
      }
      slots[i] := slots[i].(header := slots[i].header.(typ := UNKNOWN));
      slots[i] := slots[i].(header := slots[i].header.(length := 0));
      slots[i] := slots[i].(payload := Zeros(MAX_PAYLOAD_SIZE));
      slots[i] := slots[i].(state := EMPTY);
      readIndex := Succ(index, INDEX_MODULUS);
      assert slots[..] == before.slots[i := BlankSlot()];
      return header.typ == expected;
    }
  }

  /**
    One message through a fresh queue: it is taken exactly if it has a buffer and at most 256
    bytes, and then a pop for its type hands back exactly those bytes.
   */
  method PushThenPop(queue: SharedQueue, typ: Word, data: array?<Byte>, length: nat,
                     buffer: array<Byte>, header: HeaderCell)
    returns (pushed: bool, popped: bool)
    requires queue.Valid() && buffer.Length == 256
    requires data != null && length <= 256 ==> length <= data.Length
    modifies queue, queue.slots, buffer, header
    ensures pushed <==> data != null && length <= 256
    ensures popped <==> pushed
    ensures pushed ==>
              && header.header == Header(typ, length)
              && buffer[..] == old(data[..length]) + old(buffer[..])[length..]
    ensures !pushed ==> buffer[..] == old(buffer[..]) && header.header == old(header.header)
  {
    queue.InitQueue();
    pushed := queue.TryPush(typ, data, length);
    popped := queue.TryPop(typ, buffer, 256, header);
  }

  // ---------- The consumer program's drain loop ----------

  /** A pop that meets this slot takes its message. */
  predicate Poppable(slot: Slot)
  {
    slot.state == READY && slot.header.length <= MAX_PAYLOAD_SIZE
  }

  /** `k` is the length of the longest run of poppable slots from the read index on. */
  predicate ReadyRun(q: Shared, k: nat)
    requires |q.slots| > 0
  {
    && k <= |q.slots|
    && AllPoppable(q, k)
    && (k < |q.slots| ==> !Poppable(SlotFrom(q, q.readIndex, k)))
  }

  /** The bytes of the TEXT messages among the first `k` of the run, in order. */
  function Texts(q: Shared, k: nat): seq<seq<Byte>>
    requires |q.slots| > 0
  {
    if k == 0 then []
    else
      var slot := SlotFrom(q, q.readIndex, k - 1);
      Texts(q, k - 1) +
      if slot.header.typ == TEXT && slot.header.length <= MAX_PAYLOAD_SIZE
      then [slot.payload[..slot.header.length]] else []
  }

  predicate AllPoppable(q: Shared, k: nat)
    requires |q.slots| > 0
  {
    forall j :: 0 <= j < k ==> Poppable(SlotFrom(q, q.readIndex, j))
  }

  /** `q` is `q0` after its first `k` poppable slots have been popped. */
  predicate DrainedTo(q0: Shared, q: Shared, k: nat)
    requires |q0.slots| > 0
  {
    && |q.slots| == |q0.slots| && k <= |q0.slots|
    && q.writeIndex == q0.writeIndex && q.readIndex == (q0.readIndex + k) % INDEX_MODULUS
    && SlotsDrained(q0, q, k)
  }

  /**
    The `k`-th message of the run is discarded just as the read index wraps to 0, so that
    the loop takes the discard for an empty queue.
   */
  predicate DiscardedAtWrap(q: Shared, k: nat)
    requires |q.slots| > 0
  {
    k > 0 && q.readIndex + k == INDEX_MODULUS && SlotFrom(q, q.readIndex, k - 1).header.typ != TEXT
  }

  /**
    How the loop tells its three cases apart: a false pop that moved the index up discarded
    a message, and the other way round except where the index wraps.
   */
  lemma FalsePopMovesIndexIffDiscarded(q: Shared, req: PopRequest)
    requires |q.slots| > 0 && q.readIndex < INDEX_MODULUS
    ensures
      var (q', r) := Pop(q, req, INDEX_MODULUS);
      var returned := r.Popped? && r.header.typ == req.expected;
      var slot := SlotFrom(q, q.readIndex, 0);
      var discarded := Poppable(slot) && slot.header.length <= req.bufferSize && slot.header.typ != req.expected;
      !returned && q'.readIndex > q.readIndex <==> discarded && q.readIndex + 1 != INDEX_MODULUS
  {
    assert Succ(q.readIndex, INDEX_MODULUS) > q.readIndex <==> q.readIndex + 1 != INDEX_MODULUS;
  }

  /** What the next pop does once `k` messages are drained. */
  predicate PopsNext(q0: Shared, q: Shared, k: nat, req: PopRequest)
    requires 0 < |q0.slots| == |q.slots|
  {
    var (q', r) := Pop(q, req, INDEX_MODULUS);
    if r.Popped? then
      && DrainedTo(q0, q', k + 1)
      && AllPoppable(q0, k + 1)
      && Texts(q0, k + 1) == Texts(q0, k) + (if r.header.typ == TEXT then [r.out] else [])
      && (q'.readIndex > q.readIndex || r.header.typ == TEXT <==> !DiscardedAtWrap(q0, k + 1))
    else
      q' == q && ReadyRun(q0, k)
  }

  /** Index arithmetic of one pop, wrapping or not. */
  lemma IndexAfter(r0: nat, k: nat, index: nat)
    requires r0 < INDEX_MODULUS && k <= QUEUE_CAPACITY && index == (r0 + k) % INDEX_MODULUS
    ensures SlotOf(index, QUEUE_CAPACITY) == SlotOf(r0 + k, QUEUE_CAPACITY)
    ensures Succ(index, INDEX_MODULUS) == (r0 + k + 1) % INDEX_MODULUS
    ensures Succ(index, INDEX_MODULUS) > index <==> r0 + k + 1 != INDEX_MODULUS
  {
    WrapSucc(r0 + k, INDEX_MODULUS);
    assert QUEUE_CAPACITY * 0x1000_0000_0000_0000 == INDEX_MODULUS;
    WrapSameSlot(r0 + k, QUEUE_CAPACITY, 0x1000_0000_0000_0000);
  }

  lemma PopDrains(q0: Shared, q: Shared, k: nat, req: PopRequest)
    requires |q0.slots| == QUEUE_CAPACITY && q0.readIndex < INDEX_MODULUS && DrainedTo(q0, q, k)
    requires req == PopRequest(TEXT, MAX_PAYLOAD_SIZE) && AllPoppable(q0, k)
    ensures PopsNext(q0, q, k, req)
  {
    var r0 := q0.readIndex;
    IndexAfter(r0, k, q.readIndex);
    if k == |q0.slots| {
      SlotsRepeat(r0, k);
      assert SlotFrom(q, r0, 0) == BlankSlot();
    } else {
      assert SlotFrom(q, r0, k) == SlotFrom(q0, r0, k);
      if Pop(q, req, INDEX_MODULUS).1.Popped? {
        BlankedSlotDrains(q0, q, k, Pop(q, req, INDEX_MODULUS).0);
      }
    }
  }

  /** One pop of the loop, with the text it hands over. */
  method PopText(queue: SharedQueue, buffer: array<Byte>, header: HeaderCell) returns (popped: bool, text: seq<Byte>)
    requires queue.Valid() && buffer.Length == MAX_PAYLOAD_SIZE
    modifies queue, queue.slots, buffer, header
    ensures queue.Valid()
    ensures
      var (q, r) := Pop(old(queue.View()), PopRequest(TEXT, MAX_PAYLOAD_SIZE), INDEX_MODULUS);
      && queue.View() == q
      && (popped <==> r.Popped? && r.header.typ == TEXT)
      && (popped ==> text == r.out)
  {
    popped := queue.TryPop(TEXT, buffer, MAX_PAYLOAD_SIZE, header);
    text := if popped then buffer[..header.header.length] else [];
  }

  /**
    With no producer running the loop ends, having popped `taken` messages.  They are the
    run of ready slots it found, the received being the TEXT ones in order and all the
    others counted as skipped: unless, and only unless, a message is discarded just as the
    64-bit index wraps, where the loop stops early and leaves that one uncounted.
   */
  method Drain(queue: SharedQueue) returns (received: seq<seq<Byte>>, skipped: nat, ghost taken: nat)
    requires queue.Valid()
    modifies queue, queue.slots
    ensures queue.Valid()
    ensures DrainedTo(old(queue.View()), queue.View(), taken)
    ensures AllPoppable(old(queue.View()), taken)
    ensures received == Texts(old(queue.View()), taken)
    ensures forall j :: 0 <= j < taken ==> !DiscardedAtWrap(old(queue.View()), j)
    ensures !DiscardedAtWrap(old(queue.View()), taken) ==>
              |received| + skipped == taken && ReadyRun(old(queue.View()), taken)
    ensures DiscardedAtWrap(old(queue.View()), taken) ==> |received| + skipped == taken - 1
  {
    ghost var q0 := queue.View();
    var buffer := new Byte[MAX_PAYLOAD_SIZE](_ => 0);
    var header := new HeaderCell();
    received, skipped, taken := [], 0, 0;
    while true
      invariant queue.Valid() && fresh(buffer) && fresh(header)
      invariant taken == |received| + skipped
      invariant DrainedTo(q0, queue.View(), taken) && AllPoppable(q0, taken)
      invariant received == Texts(q0, taken)
      invariant forall j :: 0 <= j <= taken ==> !DiscardedAtWrap(q0, j)
      decreases QUEUE_CAPACITY - taken
    {
      PopDrains(q0, queue.View(), taken, PopRequest(TEXT, MAX_PAYLOAD_SIZE));
      ghost var result := Pop(queue.View(), PopRequest(TEXT, MAX_PAYLOAD_SIZE), INDEX_MODULUS).1;
      var before := queue.readIndex;
      var popped, text := PopText(queue, buffer, header);
      var after := queue.readIndex;
      if popped {
        received := received + [text];
        taken := taken + 1;
        continue;
      }
      if after > before {
        skipped := skipped + 1;
        taken := taken + 1;
        continue;
      }
      taken := if result.Popped? then taken + 1 else taken;
      break;
    }
  }

  // ---------- A whole session: producers first, then the consumer ----------

  /** The bytes of the TEXT messages, in order. */
  function TextsOf(msgs: seq<Message>): seq<seq<Byte>>
  {
    if msgs == [] then []
    else
      var last := msgs[|msgs| - 1];
      TextsOf(msgs[..|msgs| - 1]) + if last.typ == TEXT then [last.data] else []
  }

  /** The first slots hold `msgs`, one each, and the others are blank. */
  predicate Loaded(slots: seq<Slot>, msgs: seq<Message>)
  {
    && |msgs| <= |slots| == QUEUE_CAPACITY
    && (forall j :: 0 <= j < |msgs| ==> Holds(slots[j], msgs[j]))
    && (forall j :: |msgs| <= j < |slots| ==> slots[j] == BlankSlot())
  }

  lemma LoadMore(q: Shared, msgs: seq<Message>, msg: Message)
    requires Loaded(q.slots, msgs) && (|msgs| < QUEUE_CAPACITY ==> q.writeIndex == |msgs|)
    ensures Push(q, msg, INDEX_MODULUS).1 <==> |msgs| < QUEUE_CAPACITY
    ensures |msgs| < QUEUE_CAPACITY ==>
              var q' := Push(q, msg, INDEX_MODULUS).0;
              Loaded(q'.slots, msgs + [msg]) && q'.writeIndex == |msgs| + 1
    ensures |msgs| == QUEUE_CAPACITY ==> Push(q, msg, INDEX_MODULUS).0.slots == q.slots
  {
    if |msgs| == QUEUE_CAPACITY {
      var i := SlotOf(q.writeIndex, QUEUE_CAPACITY);
      assert Holds(q.slots[i], msgs[i]);
    }
  }

  /** What the consumer meets at the `j`-th index. */
  lemma LoadedSlot(q: Shared, msgs: seq<Message>, j: nat)
    requires Loaded(q.slots, msgs) && q.readIndex == 0 && j < QUEUE_CAPACITY
    ensures
      var slot := SlotFrom(q, 0, j);
      && (Poppable(slot) <==> j < |msgs|)
      && (j < |msgs| ==> slot.header == HeaderOf(msgs[j]) && slot.payload[..slot.header.length] == msgs[j].data)
  {
    assert SlotFrom(q, 0, j) == q.slots[j];
  }

  lemma {:induction false} LoadedTexts(q: Shared, msgs: seq<Message>, k: nat)
    requires Loaded(q.slots, msgs) && q.readIndex == 0 && k <= |msgs|
    ensures Texts(q, k) == TextsOf(msgs[..k])
  {
    if k > 0 {
      LoadedTexts(q, msgs, k - 1);
      LoadedSlot(q, msgs, k - 1);
      assert msgs[..k][..k - 1] == msgs[..k - 1];
    }
  }

  lemma ReadyRunUnique(q: Shared, k: nat, k': nat)
    requires |q.slots| > 0 && ReadyRun(q, k) && ReadyRun(q, k')
    ensures k == k'
  {
    assert Poppable(SlotFrom(q, q.readIndex, k)) || k' <= k;
    assert Poppable(SlotFrom(q, q.readIndex, k')) || k <= k';
  }

  lemma LoadedRun(q: Shared, msgs: seq<Message>)
    requires Loaded(q.slots, msgs) && q.readIndex == 0
    ensures ReadyRun(q, |msgs|)
  {
    forall j | 0 <= j < QUEUE_CAPACITY ensures Poppable(SlotFrom(q, 0, j)) <==> j < |msgs| {
      LoadedSlot(q, msgs, j);
    }
  }

  /** A push of a whole message from a buffer of its own. */
  method Send(queue: SharedQueue, msg: Message) returns (ok: bool)
    requires queue.Valid()
    modifies queue, queue.slots
    ensures queue.Valid() && (queue.View(), ok) == Push(old(queue.View()), msg, INDEX_MODULUS)
  {
    var data := new Byte[|msg.data|](b requires 0 <= b < |msg.data| => msg.data[b]);
    assert data[..|msg.data|] == msg.data;
    ok := queue.TryPush(msg.typ, data, |msg.data|);
  }

  /** Producers push `msgs` into a fresh queue: the first sixteen are stored and no others. */
  method Produce(queue: SharedQueue, msgs: seq<Message>) returns (sent: nat)
    requires queue.Valid()
    modifies queue, queue.slots
    ensures queue.Valid() && queue.readIndex == 0
    ensures sent == if |msgs| < QUEUE_CAPACITY then |msgs| else QUEUE_CAPACITY
    ensures Loaded(queue.View().slots, msgs[..sent])
  {
    queue.InitQueue();
    sent := 0;
    for i := 0 to |msgs|
      invariant queue.Valid() && queue.readIndex == 0
      invariant sent == if i < QUEUE_CAPACITY then i else QUEUE_CAPACITY
      invariant Loaded(queue.View().slots, msgs[..sent])
      invariant sent < QUEUE_CAPACITY ==> queue.writeIndex == sent
    {
      LoadMore(queue.View(), msgs[..sent], msgs[i]);
      var ok := Send(queue, msgs[i]);
      if ok {
        assert msgs[..sent] + [msgs[sent]] == msgs[..sent + 1];
        sent := sent + 1;
      }
    }
  }

  /**
    Producers push `msgs`, then the consumer drains.  The first sixteen are stored and no
    others; the consumer receives the TEXT ones byte for byte and in order, counts all the
    others of the sixteen as skipped, and leaves every slot blank.
   */
  method Session(queue: SharedQueue, msgs: seq<Message>) returns (sent: nat, received: seq<seq<Byte>>, skipped: nat)
    requires queue.Valid()
    modifies queue, queue.slots
    ensures queue.Valid()
    ensures sent == if |msgs| < QUEUE_CAPACITY then |msgs| else QUEUE_CAPACITY
    ensures received == TextsOf(msgs[..sent])
    ensures skipped == sent - |received|
    ensures forall i :: 0 <= i < QUEUE_CAPACITY ==> queue.View().slots[i] == BlankSlot()
  {
    sent := Produce(queue, msgs);
    ghost var full := queue.View();
    ghost var taken;
    received, skipped, taken := Drain(queue);
    LoadedRun(full, msgs[..sent]);
    ReadyRunUnique(full, taken, sent);
    LoadedTexts(full, msgs[..sent], sent);
    assert msgs[..sent][..sent] == msgs[..sent];
    SessionLeavesBlank(full, queue.View(), msgs[..sent]);
  }

  lemma SessionLeavesBlank(full: Shared, q: Shared, msgs: seq<Message>)
    requires Loaded(full.slots, msgs) && full.readIndex == 0 && DrainedTo(full, q, |msgs|)
    ensures forall i :: 0 <= i < QUEUE_CAPACITY ==> q.slots[i] == BlankSlot()
  {
    forall i | 0 <= i < QUEUE_CAPACITY ensures q.slots[i] == BlankSlot() {
      assert SlotFrom(q, 0, i) == q.slots[i] && SlotFrom(full, 0, i) == full.slots[i];
    }
  }

  /** What `runs` runs of the producer program push: a number and a text each. */
  function ProducerRuns(number: Message, text: Message, runs: nat): seq<Message>
  {
    if runs == 0 then [] else ProducerRuns(number, text, runs - 1) + [number, text]
  }

  lemma {:induction false} RunsTexts(number: Message, text: Message, runs: nat)
    requires number.typ == NUMBER && text.typ == TEXT
    ensures |ProducerRuns(number, text, runs)| == 2 * runs
    ensures TextsOf(ProducerRuns(number, text, runs)) == seq(runs, _ => text.data)
  {
    if runs > 0 {
      RunsTexts(number, text, runs - 1);
      var before := ProducerRuns(number, text, runs - 1);
      assert (before + [number, text])[..2 * runs - 1] == before + [number];
      assert (before + [number])[..2 * runs - 2] == before;
    }
  }

  lemma {:induction false} RunsPrefix(number: Message, text: Message, runs: nat, k: nat)
    requires number.typ == NUMBER && text.typ == TEXT && k <= runs
    ensures |ProducerRuns(number, text, runs)| == 2 * runs
    ensures ProducerRuns(number, text, runs)[..2 * k] == ProducerRuns(number, text, k)
    decreases runs
  {
    RunsTexts(number, text, runs);
    if k < runs {
      RunsPrefix(number, text, runs - 1, k);
    }
  }

  /**
    The documented session: the producer program run any number of times, then the consumer.
    The texts of the first eight runs arrive, and their numbers are skipped.
   */
  method ProducerSession(queue: SharedQueue, number: Message, text: Message, runs: nat)
    returns (received: seq<seq<Byte>>, skipped: nat)
    requires queue.Valid() && number.typ == NUMBER && text.typ == TEXT
    modifies queue, queue.slots
    ensures queue.Valid()
    ensures
      var stored := if runs < 8 then runs else 8;
      received == seq(stored, _ => text.data) && skipped == stored
  {
    ghost var stored := if runs < 8 then runs else 8;
    RunsPrefix(number, text, runs, stored);
    RunsTexts(number, text, stored);
    var sent;
    sent, received, skipped := Session(queue, ProducerRuns(number, text, runs));
  }

  /** The number and the text that the producer program pushes, as bytes: 12345 and "hello from producer". */
  const PROGRAM_NUMBER: seq<Byte> := [0x39, 0x30, 0x00, 0x00]
  const PROGRAM_TEXT: seq<Byte> :=
    [0x68, 0x65, 0x6C, 0x6C, 0x6F, 0x20, 0x66, 0x72, 0x6F, 0x6D,
     0x20, 0x70, 0x72, 0x6F, 0x64, 0x75, 0x63, 0x65, 0x72, 0x00]

  /** The two programs as they are: messages of type 2 are skipped and those of type 1 received. */
  method ProgramSession(queue: SharedQueue, runs: nat) returns (received: seq<seq<Byte>>, skipped: nat)
    requires queue.Valid()
    modifies queue, queue.slots
    ensures queue.Valid()
    ensures |received| == skipped == if runs < 8 then runs else 8
    ensures forall i :: 0 <= i < |received| ==> received[i] == PROGRAM_TEXT
  {
    received, skipped := ProducerSession(queue, Message(2, PROGRAM_NUMBER), Message(1, PROGRAM_TEXT), runs);
  }
}
