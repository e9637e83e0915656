/** Arithmetic of indices that go round a ring of `n` slots. */
module RingRounds {
  import opened RingProtocol

  lemma MulSub(a: int, b: int, n: int)
    ensures (a - b) * n == a * n - b * n
  {
  }

  lemma MulAtLeast(d: int, n: nat)
    requires d >= 1
    ensures d * n >= n
  {
    MulSub(d, 1, n);
    assert (d - 1) * n >= 0;
  }

  lemma QuotientUnique(q0: int, r0: nat, q1: int, r1: nat, n: nat)
    requires r0 < n && r1 < n
    requires r0 + q0 * n == r1 + q1 * n
    ensures q0 == q1 && r0 == r1
  {
    MulSub(q0, q1, n);
    MulSub(q1, q0, n);
    if q0 < q1 {
      MulAtLeast(q1 - q0, n);
    } else if q1 < q0 {
      MulAtLeast(q0 - q1, n);
    }
  }

  /** The ticket that names slot `i` for the `q`-th time. */
  function TicketAt(i: nat, q: nat, n: nat): nat
  {
    i + q * n
  }

  lemma DivMod(t: nat, n: nat)
    requires n > 0
    ensures t == t % n + (t / n) * n && 0 <= t % n < n
  {
  }

  lemma TicketSplits(t: nat, n: nat)
    requires n > 0
    ensures t == TicketAt(SlotOf(t, n), t / n, n)
  {
    DivMod(t, n);
  }

  lemma TicketAtUnique(i: nat, q: nat, n: nat)
    requires i < n
    ensures SlotOf(TicketAt(i, q, n), n) == i && TicketAt(i, q, n) / n == q
  {
    var t := TicketAt(i, q, n);
    DivMod(t, n);
    QuotientUnique(q, i, t / n, t % n, n);
  }

  lemma TicketAtNext(i: nat, q: nat, n: nat)
    ensures TicketAt(i, q + 1, n) == TicketAt(i, q, n) + n
  {
    MulSub(q + 1, 1, n);
  }

  /** Two tickets for the same slot are equal or at least `n` apart. */
  lemma TicketsApart(i: nat, q0: nat, q1: nat, n: nat)
    requires q0 < q1
    ensures TicketAt(i, q0, n) + n <= TicketAt(i, q1, n)
  {
    MulSub(q1, q0, n);
    MulAtLeast(q1 - q0, n);
  }

  lemma SameSlotSameTicket(i: nat, q0: nat, q1: nat, lo: nat, n: nat)
    requires lo <= TicketAt(i, q0, n) < lo + n
    requires lo <= TicketAt(i, q1, n) < lo + n
    ensures q0 == q1
  {
    if q0 < q1 {
      TicketsApart(i, q0, q1, n);
    } else if q1 < q0 {
      TicketsApart(i, q1, q0, n);
    }
  }

  /** Fewer than `n` steps apart, two different indices name different slots. */
  lemma SlotsDiffer(a: nat, b: nat, n: nat)
    requires a < b < a + n
    ensures SlotOf(a, n) != SlotOf(b, n)
  {
    TicketSplits(a, n);
    TicketSplits(b, n);
    if SlotOf(a, n) == SlotOf(b, n) {
      SameSlotSameTicket(SlotOf(a, n), a / n, b / n, a, n);
    }
  }

  lemma SlotsRepeat(a: nat, n: nat)
    requires n > 0
    ensures SlotOf(a + n, n) == SlotOf(a, n)
  {
    TicketSplits(a, n);
    TicketAtNext(SlotOf(a, n), a / n, n);
    TicketAtUnique(SlotOf(a, n), a / n + 1, n);
  }

  lemma {:induction false} SlotsShift(a: nat, q: nat, n: nat)
    requires n > 0
    ensures SlotOf(TicketAt(a, q, n), n) == SlotOf(a, n)
  {
    if q == 0 {
      assert TicketAt(a, 0, n) == a;
    } else {
      SlotsShift(a, q - 1, n);
      TicketAtNext(a, q - 1, n);
      SlotsRepeat(TicketAt(a, q - 1, n), n);
    }
  }

  /** How many indices below `c` land on slot `i`. */
  function Rounds(c: nat, i: nat, n: nat): nat
    requires n > 0
  {
    if c == 0 then 0
    else Rounds(c - 1, i, n) + if SlotOf(c - 1, n) == i then 1 else 0
  }

  /** `q` is the round of the first ticket for slot `i` that is not below `c`. */
  predicate FirstRound(c: nat, i: nat, q: nat, n: nat)
  {
    c <= TicketAt(i, q, n) < c + n
  }

  lemma FirstRoundStep(c: nat, i: nat, q: nat, n: nat)
    requires i < n && FirstRound(c, i, q, n)
    ensures FirstRound(c + 1, i, if SlotOf(c, n) == i then q + 1 else q, n)
  {
    TicketAtUnique(i, q, n);
    TicketAtNext(i, q, n);
    if SlotOf(c, n) == i {
      TicketSplits(c, n);
      SameSlotSameTicket(i, q, c / n, c, n);
    }
  }

  /** `Rounds(c, i, n)` is that round. */
  lemma {:induction false} RoundsBounds(c: nat, i: nat, n: nat)
    requires i < n
    ensures c <= TicketAt(i, Rounds(c, i, n), n) < c + n
  {
    if c == 0 {
      assert 0 * n == 0;
    } else {
      RoundsBounds(c - 1, i, n);
      FirstRoundStep(c - 1, i, Rounds(c - 1, i, n), n);
    }
  }

  lemma RoundsUnique(c: nat, i: nat, q: nat, n: nat)
    requires i < n
    requires c <= TicketAt(i, q, n) < c + n
    ensures Rounds(c, i, n) == q
  {
    RoundsBounds(c, i, n);
    SameSlotSameTicket(i, Rounds(c, i, n), q, c, n);
  }

  /** The round in which index `c` meets its slot. */
  function RoundOf(c: nat, n: nat): nat
    requires n > 0
  {
    Rounds(c, SlotOf(c, n), n)
  }

  lemma RoundOfIsQuotient(c: nat, n: nat)
    requires n > 0
    ensures RoundOf(c, n) == c / n
  {
    TicketSplits(c, n);
    var q := c / n;
    RoundsUnique(c, SlotOf(c, n), q, n);
  }
}
