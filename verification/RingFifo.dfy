/**
  When the ring is a FIFO.  It is not one in every run: a producer can burn its ticket,
  or be overtaken on its slot by the ticket `n` later.  Neither happens exactly in the runs
  whose claims are timely: the slot's earlier ticket has been consumed by then.  Taking
  tickets only while fewer than `n` are outstanding makes every claim timely.
 */
module RingFifo {
  import opened RingProtocol
  import opened RingRounds
  import opened RingInvariant

  /** The `q`-th claim of slot `i` was made with the `q`-th ticket for slot `i`. */
  predicate InTicketOrder(h: History, n: nat)
  {
    forall i, q :: 0 <= i < |h.claims| && 0 <= q < |h.claims[i]| ==> h.claims[i][q].ticket == TicketAt(i, q, n)
  }

  predicate NoneBurned(h: History)
  {
    forall t :: 0 <= t < |h.issued| ==> !h.issued[t].fate.Burned?
  }

  predicate Ordered(s: State)
  {
    InTicketOrder(s.h, |s.m.slots|) && NoneBurned(s.h)
  }

  // ---------- Timely claims ----------

  predicate IsClaim(s: State, a: Action)
  {
    a.Producer? && a.p < |s.m.producers| && s.m.producers[a.p].Claiming?
  }

  /** A compare-and-exchange on a slot is made when the ticket one lap before has been consumed. */
  predicate Timely(s: State, a: Action)
  {
    IsClaim(s, a) ==> s.m.producers[a.p].index < |s.h.consumed| + |s.m.slots|
  }

  /** A run all of whose claims are timely. */
  ghost predicate TimelyRun(s0: State, actions: seq<Action>, s1: State)
    decreases |actions|
  {
    if actions == [] then
      s1 == s0
    else
      var last := |actions| - 1;
      exists s ::
        && TimelyRun(s0, actions[..last], s)
        && Timely(s, actions[last])
        && Steps(s, actions[last], s1)
  }

  lemma TicketIsAt(t: nat, n: nat)
    requires n > 0
    ensures t == TicketAt(SlotOf(t, n), RoundOf(t, n), n)
  {
    TicketSplits(t, n);
    RoundOfIsQuotient(t, n);
  }

  /** A held ticket that is in time is the next one for its slot, and the slot is EMPTY. */
  lemma HeldTicketIsNext(s: State, t: nat)
    requires Inv(s) && Ordered(s) && t < |s.h.issued| && s.h.issued[t].fate.Held?
    requires t < |s.h.consumed| + |s.m.slots|
    ensures
      var i := SlotOf(t, |s.m.slots|);
      s.m.slots[i] == BlankSlot() && t == TicketAt(i, |s.h.claims[i]|, |s.m.slots|)
  {
    var n, c := |s.m.slots|, |s.h.consumed|;
    var i, q := SlotOf(t, n), RoundOf(t, n);
    var made, rounds := |s.h.claims[i]|, Rounds(c, i, n);
    TicketIsAt(t, n);
    RoundsBounds(c, i, n);
    assert SlotOk(s.m, i, s.h.claims[i], rounds);
    assert made <= q by {
      assert q < made ==> ClaimOk(s, i, q);
    }
    if rounds < q {
      TicketsApart(i, rounds, q, n);
    }
  }

  /** A late claim overtakes the ticket before it if the slot is EMPTY, and is burned if not. */
  lemma LateClaimBreaks(s: State, p: nat)
    requires Inv(s) && Enabled(s.m, Producer(p)) && IsClaim(s, Producer(p)) && !Timely(s, Producer(p))
    ensures !Ordered(Step(s, Producer(p)))
  {
    var n, c, t := |s.m.slots|, |s.h.consumed|, s.m.producers[p].index;
    var i := SlotOf(t, n);
    var rounds := Rounds(c, i, n);
    assert ProducerOk(s, p);
    RoundsBounds(c, i, n);
    assert SlotOk(s.m, i, s.h.claims[i], rounds);
    var s' := Step(s, Producer(p));
    if s.m.slots[i].state == EMPTY {
      assert s'.h.claims[i][rounds].ticket == t;
    } else {
      assert s'.h.issued[t].fate.Burned?;
    }
  }

  lemma TimelyClaimKeeps(s: State, p: nat)
    requires Inv(s) && Ordered(s) && Enabled(s.m, Producer(p)) && IsClaim(s, Producer(p)) && Timely(s, Producer(p))
    ensures Ordered(Step(s, Producer(p)))
    ensures Next(s.m, Producer(p), 0).1.Claimed?
  {
    assert ProducerOk(s, p);
    HeldTicketIsNext(s, s.m.producers[p].index);
  }

  /** What a step that is no claim does to the history of tickets and claims. */
  lemma QuietHistory(s: State, a: Action, s': State)
    requires Steps(s, a, s') && !IsClaim(s, a)
    ensures s'.h.claims == s.h.claims && |s'.m.slots| == |s.m.slots|
    ensures s'.h.issued == s.h.issued + if a.TakeTicket? then [Ticket(a.p, a.msg, Held)] else []
    ensures !Next(s.m, a, 0).1.Rejected?
  {
  }

  lemma QuietKeepsOrdered(s: State, a: Action)
    requires |s.m.slots| > 0 && Enabled(s.m, a) && !IsClaim(s, a)
    ensures Ordered(Step(s, a)) <==> Ordered(s)
    ensures !Next(s.m, a, 0).1.Rejected?
  {
    var s' := Step(s, a);
    QuietHistory(s, a, s');
    assert NoneBurned(s'.h) ==> NoneBurned(s.h) by {
      assert forall t :: 0 <= t < |s.h.issued| ==> s'.h.issued[t] == s.h.issued[t];
    }
  }

  /** One step keeps ticket order and burns nothing if and only if it is timely. */
  lemma StepOrderedIffTimely(s: State, a: Action)
    requires Inv(s) && Ordered(s) && Enabled(s.m, a)
    ensures Ordered(Step(s, a)) <==> Timely(s, a)
    ensures Timely(s, a) ==> !Next(s.m, a, 0).1.Rejected?
  {
    if !IsClaim(s, a) {
      QuietKeepsOrdered(s, a);
    } else if Timely(s, a) {
      TimelyClaimKeeps(s, a.p);
    } else {
      LateClaimBreaks(s, a.p);
    }
  }

  /** What a claim, won or lost, does to the history: the claim is added or its ticket is burned. */
  lemma ClaimHistory(s: State, p: nat, s': State)
    requires Steps(s, Producer(p), s') && IsClaim(s, Producer(p)) && |s.h.claims| == |s.m.slots|
    requires s.m.producers[p].index < |s.h.issued| && s.h.issued[s.m.producers[p].index].fate.Held?
    ensures |s'.m.slots| == |s.m.slots| && |s'.h.claims| == |s.h.claims| && |s'.h.issued| == |s.h.issued|
    ensures forall i :: 0 <= i < |s.h.claims| ==> s.h.claims[i] <= s'.h.claims[i]
    ensures forall t :: 0 <= t < |s.h.issued| && s.h.issued[t].fate.Burned? ==> s'.h.issued[t].fate.Burned?
  {
  }

  lemma OrderedBeforeClaim(s: State, p: nat)
    requires Inv(s) && Enabled(s.m, Producer(p)) && IsClaim(s, Producer(p)) && Ordered(Step(s, Producer(p)))
    ensures Ordered(s)
  {
    var s' := Step(s, Producer(p));
    assert ProducerOk(s, p);
    ClaimHistory(s, p, s');
    forall i, q | 0 <= i < |s.h.claims| && 0 <= q < |s.h.claims[i]|
      ensures s.h.claims[i][q].ticket == TicketAt(i, q, |s.m.slots|)
    {
      assert s'.h.claims[i][q] == s.h.claims[i][q];
    }
  }

  /** What is out of order, or burned, stays so. */
  lemma OrderedBefore(s: State, a: Action)
    requires Inv(s) && Enabled(s.m, a) && Ordered(Step(s, a))
    ensures Ordered(s)
  {
    if IsClaim(s, a) {
      OrderedBeforeClaim(s, a.p);
    } else {
      QuietKeepsOrdered(s, a);
    }
  }

  lemma {:induction false} TimelyRunIsOrdered(n: nat, producers: nat, actions: seq<Action>, s: State)
    requires n > 0 && TimelyRun(Init(n, producers), actions, s)
    ensures Inv(s) && Ordered(s) && |s.m.slots| == n
    decreases |actions|
  {
    if actions == [] {
      InitInv(n, producers);
    } else {
      var last := |actions| - 1;
      var s' :| TimelyRun(Init(n, producers), actions[..last], s')
        && Timely(s', actions[last]) && Steps(s', actions[last], s);
      TimelyRunIsOrdered(n, producers, actions[..last], s');
      StepKeepsInv(s', actions[last]);
      StepOrderedIffTimely(s', actions[last]);
      NextKeepsShape(s'.m, actions[last], 0);
    }
  }

  lemma {:induction false} OrderedRunIsTimely(n: nat, producers: nat, actions: seq<Action>, s: State)
    requires n > 0 && Run(Init(n, producers), actions, s) && Ordered(s)
    ensures TimelyRun(Init(n, producers), actions, s)
    decreases |actions|
  {
    if actions != [] {
      var last := |actions| - 1;
      var s' :| Run(Init(n, producers), actions[..last], s') && Steps(s', actions[last], s);
      InitInv(n, producers);
      RunKeepsInv(Init(n, producers), actions[..last], s');
      OrderedBefore(s', actions[last]);
      OrderedRunIsTimely(n, producers, actions[..last], s');
      StepOrderedIffTimely(s', actions[last]);
    }
  }

  /**
    A run claims every slot in ticket order and burns no ticket if and only if each of its
    claims was made while the ticket was less than `n` ahead of the messages consumed.
   */
  lemma OrderedIffTimely(n: nat, producers: nat, actions: seq<Action>, s: State)
    requires n > 0 && Run(Init(n, producers), actions, s)
    ensures InTicketOrder(s.h, n) && NoneBurned(s.h) <==> TimelyRun(Init(n, producers), actions, s)
  {
    InitInv(n, producers);
    RunKeepsInv(Init(n, producers), actions, s);
    if TimelyRun(Init(n, producers), actions, s) {
      TimelyRunIsOrdered(n, producers, actions, s);
    } else if Ordered(s) {
      OrderedRunIsTimely(n, producers, actions, s);
    }
  }

  // ---------- The window ----------

  /** Fewer than `n` tickets are outstanding. */
  predicate Roomy(s: State)
  {
    s.m.writeIndex < |s.h.consumed| + |s.m.slots|
  }

  predicate Orderly(s: State)
  {
    Ordered(s) && s.m.writeIndex <= |s.h.consumed| + |s.m.slots|
  }

  /** A run in which every ticket is taken while there is room. */
  ghost predicate WindowedRun(s0: State, actions: seq<Action>, s1: State)
    decreases |actions|
  {
    if actions == [] then
      s1 == s0
    else
      var last := |actions| - 1;
      exists s ::
        && WindowedRun(s0, actions[..last], s)
        && (actions[last].TakeTicket? ==> Roomy(s))
        && Steps(s, actions[last], s1)
  }

  lemma OrderlyIsTimely(s: State, a: Action)
    requires Inv(s) && Orderly(s)
    ensures Timely(s, a)
  {
    if IsClaim(s, a) {
      assert ProducerOk(s, a.p);
    }
  }

  /** No more is consumed than was pushed, message by message. */
  lemma OrderedBounds(s: State)
    requires Inv(s) && Ordered(s)
    ensures |s.h.consumed| <= s.m.writeIndex
  {
    if s.h.consumed != [] {
      var k, n := |s.h.consumed| - 1, |s.m.slots|;
      assert Delivered(s.h, n, k);
      assert ClaimOk(s, SlotOf(k, n), RoundOf(k, n));
      TicketIsAt(k, n);
    }
  }

  lemma StepKeepsOrderly(s: State, a: Action)
    requires Inv(s) && Orderly(s) && Enabled(s.m, a) && (a.TakeTicket? ==> Roomy(s))
    ensures Orderly(Step(s, a))
    ensures !Next(s.m, a, 0).1.Rejected?
  {
    OrderlyIsTimely(s, a);
    StepOrderedIffTimely(s, a);
  }

  lemma {:induction false} WindowedRunIsOrderly(n: nat, producers: nat, actions: seq<Action>, s: State)
    requires n > 0 && WindowedRun(Init(n, producers), actions, s)
    ensures Inv(s) && Orderly(s) && |s.m.slots| == n
    decreases |actions|
  {
    if actions == [] {
      InitInv(n, producers);
    } else {
      var last := |actions| - 1;
      var s' :| WindowedRun(Init(n, producers), actions[..last], s')
        && (actions[last].TakeTicket? ==> Roomy(s')) && Steps(s', actions[last], s);
      WindowedRunIsOrderly(n, producers, actions[..last], s');
      StepKeepsInv(s', actions[last]);
      StepKeepsOrderly(s', actions[last]);
      NextKeepsShape(s'.m, actions[last], 0);
    }
  }

  /** A run in which a ticket is taken only while the two shared indices are less than `n` apart. */
  ghost predicate CheckedRun(s0: State, actions: seq<Action>, s1: State)
    decreases |actions|
  {
    if actions == [] then
      s1 == s0
    else
      var last := |actions| - 1;
      exists s ::
        && CheckedRun(s0, actions[..last], s)
        && (actions[last].TakeTicket? ==> s.m.writeIndex < s.m.readIndex + |s.m.slots|)
        && Steps(s, actions[last], s1)
  }

  /** Producers that compare the shared indices as they take a ticket keep to the window. */
  lemma {:induction false} CheckedRunIsWindowed(n: nat, producers: nat, actions: seq<Action>, s: State)
    requires n > 0 && CheckedRun(Init(n, producers), actions, s)
    ensures WindowedRun(Init(n, producers), actions, s)
    decreases |actions|
  {
    if actions != [] {
      var last := |actions| - 1;
      var s' :| CheckedRun(Init(n, producers), actions[..last], s')
        && (actions[last].TakeTicket? ==> s'.m.writeIndex < s'.m.readIndex + |s'.m.slots|)
        && Steps(s', actions[last], s);
      CheckedRunIsWindowed(n, producers, actions[..last], s');
      WindowedRunIsOrderly(n, producers, actions[..last], s');
      ReadIndexLags(s');
    }
  }

  lemma ReadIndexLags(s: State)
    requires Inv(s)
    ensures s.m.readIndex <= |s.h.consumed|
  {
  }

  // ---------- FIFO ----------

  lemma OrderedDelivers(s: State, k: nat)
    requires Inv(s) && Ordered(s) && k < |s.h.consumed|
    ensures k < |s.h.issued|
    ensures
      var got := s.h.consumed[k];
      Extracted(PopRequest(got.expected, 0), got.header, got.out, s.h.issued[k].msg)
    ensures
      var i, q := SlotOf(k, |s.m.slots|), RoundOf(k, |s.m.slots|);
      q < |s.h.claims[i]| && s.h.claims[i][q].producer == s.h.issued[k].producer
  {
    var n := |s.m.slots|;
    assert Delivered(s.h, n, k);
    assert ClaimOk(s, SlotOf(k, n), RoundOf(k, n));
    TicketIsAt(k, n);
  }

  /** With timely claims only, message `k` out is message `k` in. */
  lemma TimelyRunIsFifo(n: nat, producers: nat, actions: seq<Action>, s: State, k: nat)
    requires n > 0 && TimelyRun(Init(n, producers), actions, s) && k < |s.h.consumed|
    ensures k < |s.h.issued|
    ensures
      var sent, got := s.h.issued[k].msg, s.h.consumed[k];
      && got.header == Header(sent.typ, |sent.data|)
      && got.out == (if sent.typ == got.expected then sent.data else [])
  {
    TimelyRunIsOrdered(n, producers, actions, s);
    OrderedDelivers(s, k);
  }

  /** With tickets taken only while there is room, message `k` out is message `k` in. */
  lemma WindowedRunIsFifo(n: nat, producers: nat, actions: seq<Action>, s: State, k: nat)
    requires n > 0 && WindowedRun(Init(n, producers), actions, s) && k < |s.h.consumed|
    ensures k < |s.h.issued|
    ensures
      var sent, got := s.h.issued[k].msg, s.h.consumed[k];
      && got.header == Header(sent.typ, |sent.data|)
      && got.out == (if sent.typ == got.expected then sent.data else [])
  {
    WindowedRunIsOrderly(n, producers, actions, s);
    OrderedDelivers(s, k);
  }

  function Messages(tickets: seq<Ticket>): seq<Message>
  {
    seq(|tickets|, i requires 0 <= i < |tickets| => tickets[i].msg)
  }

  /** The abstract queue: tickets taken and not yet consumed, oldest first. */
  function Queue(h: History): seq<Message>
    requires |h.consumed| <= |h.issued|
  {
    Messages(h.issued[|h.consumed|..])
  }

  /** The push of the oldest message in the queue has stored READY. */
  predicate OldestPublished(s: State)
  {
    var c := |s.h.consumed|;
    && c < |s.h.issued|
    && s.h.issued[c].fate.Won?
    && forall p :: 0 <= p < |s.m.producers| && s.m.producers[p].Filling() ==> s.m.producers[p].index != c
  }

  /**
    What an event does to a FIFO queue of capacity `n`.  A push is never rejected.  A pop
    finds nothing only if the oldest message is not published yet, and refuses a message
    only if the caller's buffer is too short for it.
   */
  predicate FifoAllows(q: seq<Message>, published: bool, e: Event, q': seq<Message>, n: nat)
  {
    match e
    case Took(_, msg) => |q| < n && q' == q + [msg]
    case Released(req, header, out) =>
      q != [] && published && |q[0].data| <= req.bufferSize && Extracted(req, header, out, q[0]) && q' == q[1..]
    case Rejected(_, _) => false
    case PopNotReady => !published && q' == q
    case PopTooLong(bufferSize) => q != [] && published && |q[0].data| > bufferSize && q' == q
    case _ => q' == q
  }

  /** The slot at the read index is READY exactly when the oldest message has been published. */
  lemma ReadyIffPublished(s: State)
    requires Inv(s) && Ordered(s)
    ensures s.m.slots[SlotOf(|s.h.consumed|, |s.m.slots|)].state == READY <==> OldestPublished(s)
  {
    var n, c := |s.m.slots|, |s.h.consumed|;
    var i := SlotOf(c, n);
    var rounds := Rounds(c, i, n);
    TicketIsAt(c, n);
    assert SlotOk(s.m, i, s.h.claims[i], rounds);
    if s.m.slots[i].state == EMPTY {
      UnclaimedIsNotWon(s);
    } else {
      assert ClaimOk(s, i, rounds);
      forall p | 0 <= p < |s.m.producers| && s.m.producers[p].Filling() && s.m.producers[p].index == c
        ensures s.m.slots[i].state == WRITING
      {
        assert ProducerOk(s, p);
      }
    }
  }

  lemma UnclaimedIsNotWon(s: State)
    requires Inv(s) && Ordered(s)
    requires s.m.slots[SlotOf(|s.h.consumed|, |s.m.slots|)].state == EMPTY
    ensures !OldestPublished(s)
  {
    var n, c := |s.m.slots|, |s.h.consumed|;
    var i := SlotOf(c, n);
    TicketIsAt(c, n);
    assert SlotOk(s.m, i, s.h.claims[i], Rounds(c, i, n));
    if c < |s.h.issued| && s.h.issued[c].fate.Won? {
      var fate := s.h.issued[c].fate;
      assert FateOk(s, c);
      assert ClaimOk(s, fate.slot, fate.round);
      TicketAtUnique(fate.slot, fate.round, n);
      RoundOfIsQuotient(c, n);
    }
  }

  /** What the consumer has in hand is the oldest message. */
  lemma HoldsOldest(s: State)
    requires Inv(s) && Ordered(s) && s.m.consumer.Holding()
    ensures OldestPublished(s)
    ensures
      var i := SlotOf(s.m.consumer.index, |s.m.slots|);
      s.h.claims[i] != [] && s.h.claims[i][|s.h.claims[i]| - 1].msg == s.h.issued[|s.h.consumed|].msg
  {
    var n, c := |s.m.slots|, |s.h.consumed|;
    var i := SlotOf(c, n);
    ReadyIffPublished(s);
    TicketIsAt(c, n);
    assert SlotOk(s.m, i, s.h.claims[i], Rounds(c, i, n));
    assert ClaimOk(s, i, Rounds(c, i, n));
  }

  lemma ClaimIsQuiet(s: State, p: nat)
    requires Inv(s) && Orderly(s) && Enabled(s.m, Producer(p)) && s.m.producers[p].Claiming?
    ensures |s.h.consumed| <= |s.h.issued| == |Step(s, Producer(p)).h.issued|
    ensures Next(s.m, Producer(p), 0).1.Claimed?
    ensures |Step(s, Producer(p)).h.consumed| == |s.h.consumed|
    ensures Queue(Step(s, Producer(p)).h) == Queue(s.h)
  {
    OrderedBounds(s);
    OrderlyIsTimely(s, Producer(p));
    TimelyClaimKeeps(s, p);
    assert ProducerOk(s, p);
  }

  lemma PopStepRefinesFifo(s: State)
    requires Inv(s) && Ordered(s) && Enabled(s.m, Consumer)
    ensures |s.h.consumed| <= |s.h.issued| && |Step(s, Consumer).h.consumed| <= |Step(s, Consumer).h.issued|
    ensures FifoAllows(Queue(s.h), OldestPublished(s), Next(s.m, Consumer, 0).1,
                       Queue(Step(s, Consumer).h), |s.m.slots|)
  {
    OrderedBounds(s);
    ReadyIffPublished(s);
    if s.m.consumer.Holding() {
      HoldsOldest(s);
    }
  }

  /** Every step is an enqueue, a dequeue of the oldest message, or invisible to the queue. */
  lemma WindowedStepRefinesFifo(s: State, a: Action)
    requires Inv(s) && Orderly(s) && Enabled(s.m, a) && (a.TakeTicket? ==> Roomy(s))
    ensures |s.h.consumed| <= |s.h.issued| && |Step(s, a).h.consumed| <= |Step(s, a).h.issued|
    ensures FifoAllows(Queue(s.h), OldestPublished(s), Next(s.m, a, 0).1, Queue(Step(s, a).h), |s.m.slots|)
  {
    OrderedBounds(s);
    match a
    case TakeTicket(p, msg) =>
    case Producer(p) =>
      if s.m.producers[p].Claiming? {
        ClaimIsQuiet(s, p);
      }
    case BeginPop(_) =>
    case Consumer => PopStepRefinesFifo(s);
  }

  // ---------- Each producer's messages arrive in program order ----------

  function SentBy(tickets: seq<Ticket>, p: nat): seq<Message>
  {
    if tickets == [] then []
    else
      var last := |tickets| - 1;
      SentBy(tickets[..last], p) + if tickets[last].producer == p then [tickets[last].msg] else []
  }

  /** The messages among the first `c` consumed that producer `p` pushed. */
  function ReceivedFrom(h: History, n: nat, c: nat, p: nat): seq<Message>
    requires 0 < n == |h.claims| && c <= |h.consumed| && DeliveryLaw(h, n)
  {
    if c == 0 then []
    else
      assert Delivered(h, n, c - 1);
      var claim := h.claims[SlotOf(c - 1, n)][RoundOf(c - 1, n)];
      ReceivedFrom(h, n, c - 1, p) + if claim.producer == p then [claim.msg] else []
  }

  /** The claim behind consumed message `k` is the one of ticket `k`. */
  lemma ReceivedIsTicket(s: State, k: nat)
    requires Inv(s) && Ordered(s) && k < |s.h.consumed|
    ensures
      var i, q := SlotOf(k, |s.m.slots|), RoundOf(k, |s.m.slots|);
      && k < |s.h.issued| && q < |s.h.claims[i]|
      && s.h.claims[i][q].producer == s.h.issued[k].producer && s.h.claims[i][q].msg == s.h.issued[k].msg
  {
    var n := |s.m.slots|;
    assert Delivered(s.h, n, k);
    assert ClaimOk(s, SlotOf(k, n), RoundOf(k, n));
    TicketIsAt(k, n);
  }

  lemma {:induction false} ReceivedInOrder(s: State, c: nat, p: nat)
    requires Inv(s) && Ordered(s) && c <= |s.h.consumed|
    ensures c <= |s.h.issued|
    ensures ReceivedFrom(s.h, |s.m.slots|, c, p) == SentBy(s.h.issued[..c], p)
  {
    if c > 0 {
      ReceivedInOrder(s, c - 1, p);
      ReceivedIsTicket(s, c - 1);
      assert s.h.issued[..c][..c - 1] == s.h.issued[..c - 1];
    }
  }

  lemma {:induction false} SentByPrefix(tickets: seq<Ticket>, c: nat, p: nat)
    requires c <= |tickets|
    ensures SentBy(tickets[..c], p) <= SentBy(tickets, p)
    decreases |tickets|
  {
    if c < |tickets| {
      var last := |tickets| - 1;
      SentByPrefix(tickets[..last], c, p);
      assert tickets[..last][..c] == tickets[..c];
    } else {
      assert tickets[..c] == tickets;
    }
  }

  lemma WindowedRunKeepsProgramOrder(n: nat, producers: nat, actions: seq<Action>, s: State, p: nat)
    requires n > 0 && WindowedRun(Init(n, producers), actions, s)
    ensures |s.h.claims| == n && DeliveryLaw(s.h, n)
    ensures ReceivedFrom(s.h, n, |s.h.consumed|, p) <= SentBy(s.h.issued, p)
  {
    WindowedRunIsOrderly(n, producers, actions, s);
    OrderedBounds(s);
    ReceivedInOrder(s, |s.h.consumed|, p);
    SentByPrefix(s.h.issued, |s.h.consumed|, p);
  }

  // ---------- The window is exact for a claim made at once ----------

  /**
    From an orderly state, taking a ticket and at once trying to claim with it keeps
    ticket order and burns nothing if and only if there was room.
   */
  lemma WindowIsExact(s: State, p: nat, msg: Message)
    requires Inv(s) && Orderly(s) && Enabled(s.m, TakeTicket(p, msg))
    ensures
      var s1 := Step(s, TakeTicket(p, msg));
      var s2 := Step(s1, Producer(p));
      InTicketOrder(s2.h, |s2.m.slots|) && NoneBurned(s2.h) <==> Roomy(s)
  {
    var s1 := Step(s, TakeTicket(p, msg));
    StepKeepsInv(s, TakeTicket(p, msg));
    StepOrderedIffTimely(s, TakeTicket(p, msg));
    StepOrderedIffTimely(s1, Producer(p));
  }
}
