/**
  The indices of the real ring are 64-bit and wrap.  As the capacity divides 2^64, the
  wrapping ring and the ring with unbounded tickets take the same steps, name the same
  slots and return the same results, for ever.
 */
module RingWrap {
  import opened RingProtocol
  import opened RingRounds

  const INDEX_MODULUS: nat := 0x1_0000_0000_0000_0000

  function WrapProducer(pc: ProducerPc, wrap: nat): ProducerPc
    requires wrap > 0
  {
    if pc.Idle? then pc else pc.(index := pc.index % wrap)
  }

  function WrapConsumer(pc: ConsumerPc, wrap: nat): ConsumerPc
    requires wrap > 0
  {
    if pc.Outside? then pc else pc.(index := pc.index % wrap)
  }

  /** The same machine with every index reduced to a `wrap`-sized word. */
  function Wrapped(m: Machine, wrap: nat): Machine
    requires wrap > 0
  {
    Machine(
      m.slots,
      m.writeIndex % wrap,
      m.readIndex % wrap,
      seq(|m.producers|, p requires 0 <= p < |m.producers| => WrapProducer(m.producers[p], wrap)),
      WrapConsumer(m.consumer, wrap))
  }

  /** An event without the index that a caller does not see. */
  function Visible(e: Event): Event
  {
    match e
    case Claimed(p, _, msg) => Claimed(p, 0, msg)
    case Rejected(p, _) => Rejected(p, 0)
    case _ => e
  }

  lemma MulAssoc(a: int, b: int, c: int)
    ensures a * (c * b) == (a * b) * c
  {
  }

  lemma WrapSameSlot(index: nat, n: nat, laps: nat)
    requires n > 0 && laps > 0
    ensures n * laps > 0
    ensures SlotOf(index % (n * laps), n) == SlotOf(index, n)
  {
    MulAtLeast(laps, n);
    var wrap := n * laps;
    var low, turns := index % wrap, index / wrap;
    DivMod(index, wrap);
    MulAssoc(turns, laps, n);
    SlotsShift(low, turns * laps, n);
  }

  lemma ExactQuotient(wrap: nat, n: nat) returns (laps: nat)
    requires n > 0 && wrap > 0 && wrap % n == 0
    ensures laps > 0 && n * laps == wrap
  {
    laps := wrap / n;
    DivMod(wrap, n);
    MulAssoc(1, laps, n);
  }

  /** Reducing an index to a word keeps its slot exactly when the capacity divides the word size. */
  lemma WrapIsSafeIffCapacityDivides(n: nat, wrap: nat)
    requires n > 0 && wrap > 0
    ensures (forall index: nat :: SlotOf(index % wrap, n) == SlotOf(index, n)) <==> wrap % n == 0
  {
    if wrap % n == 0 {
      var laps := ExactQuotient(wrap, n);
      forall index: nat ensures SlotOf(index % wrap, n) == SlotOf(index, n) {
        WrapSameSlot(index, n, laps);
      }
    } else {
      assert SlotOf(wrap % wrap, n) == 0;
      assert SlotOf(wrap, n) == wrap % n;
    }
  }

  lemma WrapSucc(index: nat, wrap: nat)
    requires wrap > 0
    ensures Succ(index % wrap, wrap) == Succ(index, 0) % wrap
  {
    var low, turns := index % wrap, index / wrap;
    DivMod(index, wrap);
    if low + 1 < wrap {
      TicketAtUnique(low + 1, turns, wrap);
      TicketAtUnique(low + 1, 0, wrap);
    } else {
      TicketAtNext(0, turns, wrap);
      TicketAtUnique(0, turns + 1, wrap);
      TicketAtUnique(0, 1, wrap);
    }
  }

  lemma WrapProducerStep(m: Machine, p: nat, laps: nat)
    requires |m.slots| > 0 && laps > 0 && Enabled(m, Producer(p))
    ensures |m.slots| * laps > 0 && Enabled(Wrapped(m, |m.slots| * laps), Producer(p))
    ensures
      var wrap := |m.slots| * laps;
      var (m0, e0) := Next(m, Producer(p), 0);
      var (m1, e1) := Next(Wrapped(m, wrap), Producer(p), wrap);
      m1 == Wrapped(m0, wrap) && Visible(e1) == Visible(e0)
  {
    WrapSameSlot(m.producers[p].index, |m.slots|, laps);
    var wrap := |m.slots| * laps;
    var m0 := Next(m, Producer(p), 0).0;
    var m1 := Next(Wrapped(m, wrap), Producer(p), wrap).0;
    assert m1.slots == m0.slots;
    assert m1.producers == Wrapped(m0, wrap).producers;
  }

  lemma WrapConsumerStep(m: Machine, laps: nat)
    requires |m.slots| > 0 && laps > 0 && Enabled(m, Consumer)
    ensures |m.slots| * laps > 0 && Enabled(Wrapped(m, |m.slots| * laps), Consumer)
    ensures
      var wrap := |m.slots| * laps;
      var (m0, e0) := Next(m, Consumer, 0);
      var (m1, e1) := Next(Wrapped(m, wrap), Consumer, wrap);
      m1 == Wrapped(m0, wrap) && Visible(e1) == Visible(e0)
  {
    WrapSameSlot(m.consumer.index, |m.slots|, laps);
    var wrap := |m.slots| * laps;
    WrapSucc(m.consumer.index, wrap);
    var m0 := Next(m, Consumer, 0).0;
    var m1 := Next(Wrapped(m, wrap), Consumer, wrap).0;
    assert m1.slots == m0.slots;
    assert m1.producers == Wrapped(m0, wrap).producers;
  }

  /** One step: the two machines can take the same actions, and taking one keeps them in step. */
  lemma WrapStep(m: Machine, a: Action, laps: nat)
    requires |m.slots| > 0 && laps > 0
    ensures |m.slots| * laps > 0
    ensures Enabled(Wrapped(m, |m.slots| * laps), a) <==> Enabled(m, a)
    ensures Enabled(m, a) ==>
      var wrap := |m.slots| * laps;
      var (m0, e0) := Next(m, a, 0);
      var (m1, e1) := Next(Wrapped(m, wrap), a, wrap);
      m1 == Wrapped(m0, wrap) && Visible(e1) == Visible(e0)
  {
    MulAtLeast(laps, |m.slots|);
    var wrap := |m.slots| * laps;
    assert wrap > 0;
    if Enabled(m, a) {
      match a
      case TakeTicket(p, msg) =>
        WrapSucc(m.writeIndex, wrap);
        var m0 := Next(m, a, 0).0;
        var m1 := Next(Wrapped(m, wrap), a, wrap).0;
        assert m1.producers == Wrapped(m0, wrap).producers;
      case Producer(p) => WrapProducerStep(m, p, laps);
      case BeginPop(req) =>
      case Consumer => WrapConsumerStep(m, laps);
    }
  }

  /** The machine can take `actions` in order. */
  predicate CanRun(m: Machine, actions: seq<Action>, wrap: nat)
    decreases |actions|
  {
    actions != [] ==>
      && |m.slots| > 0
      && Enabled(m, actions[0])
      && CanRun(Next(m, actions[0], wrap).0, actions[1..], wrap)
  }

  /** What the outside sees of taking `actions` in order. */
  function Observed(m: Machine, actions: seq<Action>, wrap: nat): seq<Event>
    requires CanRun(m, actions, wrap)
    decreases |actions|
  {
    if actions == [] then []
    else
      var (m', e) := Next(m, actions[0], wrap);
      [Visible(e)] + Observed(m', actions[1..], wrap)
  }

  lemma {:induction false} WrapRun(m: Machine, actions: seq<Action>, laps: nat)
    requires |m.slots| > 0 && laps > 0
    ensures |m.slots| * laps > 0
    ensures CanRun(Wrapped(m, |m.slots| * laps), actions, |m.slots| * laps) <==> CanRun(m, actions, 0)
    ensures CanRun(m, actions, 0) ==>
              Observed(Wrapped(m, |m.slots| * laps), actions, |m.slots| * laps) == Observed(m, actions, 0)
    decreases |actions|
  {
    MulAtLeast(laps, |m.slots|);
    if actions != [] {
      WrapStep(m, actions[0], laps);
      if Enabled(m, actions[0]) {
        NextKeepsShape(m, actions[0], 0);
        WrapRun(Next(m, actions[0], 0).0, actions[1..], laps);
      }
    }
  }

  /** With the capacity of the repository and 64-bit indices, from a fresh queue. */
  lemma SixteenSlotsWrapUnseen(producers: nat, actions: seq<Action>)
    ensures
      var m := Init(QUEUE_CAPACITY, producers).m;
      && (CanRun(m, actions, INDEX_MODULUS) <==> CanRun(m, actions, 0))
      && (CanRun(m, actions, 0) ==> Observed(m, actions, INDEX_MODULUS) == Observed(m, actions, 0))
  {
    var m := Init(QUEUE_CAPACITY, producers).m;
    assert QUEUE_CAPACITY * 0x1000_0000_0000_0000 == INDEX_MODULUS;
    assert Wrapped(m, INDEX_MODULUS) == m;
    WrapRun(m, actions, 0x1000_0000_0000_0000);
  }
}
