/**
  What burned tickets cost when threads interleave: from a ring at rest with its indices
  `k` slots out of step, nothing at all is delivered while at most `n - k` pushes start,
  whatever the schedule, although every one of those pushes succeeds.
 */
module RingStall {
  import opened RingProtocol
  import opened RingRounds
  import opened RingInvariant
  import opened RingDelivery
  import opened RingSequential
  import opened RingBurned
  import Sums

  /** How many pushes start. */
  function Starts(actions: seq<Action>): nat
  {
    if actions == [] then 0
    else Starts(actions[..|actions| - 1]) + if actions[|actions| - 1].TakeTicket? then 1 else 0
  }

  /** `actions` lead from `s0` to `s` and start at most `d` pushes. */
  ghost predicate Schedule(s0: State, actions: seq<Action>, s: State, d: nat)
  {
    Run(s0, actions, s) && Starts(actions) <= d
  }

  /** The slot of the `j`-th ticket after `base`, which only that ticket may have claimed. */
  predicate OnlyBy(s: State, base: nat, j: nat)
    requires |s.m.slots| > 0
  {
    SlotFrom(SharedOf(s.m), base, j).state != EMPTY ==>
      base + j < |s.h.issued| && s.h.issued[base + j].fate.Won?
  }

  /** Since `s0`, tickets were taken and used and nothing was burned or delivered. */
  predicate Stalled(s0: State, s: State)
    requires |s0.m.slots| > 0
  {
    && |s.m.slots| == |s0.m.slots| && |s.m.producers| == |s0.m.producers|
    && s.h.consumed == s0.h.consumed && s.m.readIndex == s0.m.readIndex
    && (s.m.consumer.Outside? || s.m.consumer.Probing?)
    && s0.h.issued <= s.h.issued
    && (forall t :: |s0.h.issued| <= t < |s.h.issued| ==> !s.h.issued[t].fate.Burned?)
    && forall j :: 0 <= j < |s0.m.slots| ==> OnlyBy(s, |s0.h.issued|, j)
  }

  lemma StalledAtRest(s0: State)
    requires Inv(s0) && AtRest(s0.m)
    ensures Stalled(s0, s0)
  {
  }

  /** No ticket taken before the rest is still to be used. */
  lemma HeldIsLater(s0: State, s: State, p: nat)
    requires Inv(s0) && AtRest(s0.m) && Inv(s) && Stalled(s0, s) && p < |s.m.producers| && s.m.producers[p].Claiming?
    ensures |s0.h.issued| <= s.m.producers[p].index < |s.h.issued|
    ensures s.h.issued[s.m.producers[p].index].fate.Held?
  {
    assert ProducerOk(s, p);
    var t := s.m.producers[p].index;
    assert t < |s0.h.issued| ==> FateOk(s0, t);
  }

  lemma WonOutcome(s: State, p: nat, s': State)
    requires Steps(s, Producer(p), s') && s.m.producers[p].Claiming? && s.m.producers[p].index < |s.h.issued|
    requires |s.h.claims| == |s.m.slots| && s.m.slots[SlotOf(s.m.producers[p].index, |s.m.slots|)].state == EMPTY
    ensures
      var t := s.m.producers[p].index;
      var i := SlotOf(t, |s.m.slots|);
      && s'.m.slots == s.m.slots[i := s.m.slots[i].(state := WRITING)]
      && s'.h.issued == s.h.issued[t := s'.h.issued[t]] && s'.h.issued[t].fate.Won?
      && s'.h.consumed == s.h.consumed && s'.m.readIndex == s.m.readIndex && s'.m.consumer == s.m.consumer
      && |s'.m.producers| == |s.m.producers| && Next(s.m, Producer(p), 0).1.Claimed?
  {
  }

  lemma ClaimStalls(s0: State, s: State, p: nat)
    requires Inv(s0) && AtRest(s0.m) && Inv(s) && Stalled(s0, s)
    requires |s.h.issued| < |s0.h.issued| + |s0.m.slots|
    requires Enabled(s.m, Producer(p)) && s.m.producers[p].Claiming?
    ensures Next(s.m, Producer(p), 0).1.Claimed? && Stalled(s0, Step(s, Producer(p)))
  {
    var n, base, t := |s.m.slots|, |s0.h.issued|, s.m.producers[p].index;
    var s' := Step(s, Producer(p));
    HeldIsLater(s0, s, p);
    assert OnlyBy(s, base, t - base);
    WonOutcome(s, p, s');
    WonKeepsOthers(s, s', base, t);
  }

  /** The slots of the other tickets are not the slot that ticket `t` claims. */
  lemma WonKeepsOthers(s: State, s': State, base: nat, t: nat)
    requires 0 < |s.m.slots| == |s'.m.slots| && base <= t < base + |s.m.slots| && t < |s.h.issued| == |s'.h.issued|
    requires forall j :: 0 <= j < |s.m.slots| ==> OnlyBy(s, base, j)
    requires s'.m.slots == s.m.slots[SlotOf(t, |s.m.slots|) := s'.m.slots[SlotOf(t, |s.m.slots|)]]
    requires s'.h.issued == s.h.issued[t := s'.h.issued[t]] && s'.h.issued[t].fate.Won?
    ensures forall j :: 0 <= j < |s.m.slots| ==> OnlyBy(s', base, j)
  {
    var n := |s.m.slots|;
    forall j | 0 <= j < n ensures OnlyBy(s', base, j) {
      assert OnlyBy(s, base, j);
      if base + j < t {
        SlotsDiffer(base + j, t, n);
      } else if t < base + j {
        SlotsDiffer(t, base + j, n);
      }
    }
  }

  lemma FillStalls(s0: State, s: State, p: nat)
    requires |s0.m.slots| > 0 && Inv(s) && Stalled(s0, s)
    requires Enabled(s.m, Producer(p)) && s.m.producers[p].Filling()
    ensures Stalled(s0, Step(s, Producer(p)))
  {
    var s' := Step(s, Producer(p));
    assert ProducerOk(s, p);
    forall j | 0 <= j < |s.m.slots| ensures OnlyBy(s', |s0.h.issued|, j) {
      assert OnlyBy(s, |s0.h.issued|, j);
    }
  }

  lemma TakeStalls(s0: State, s: State, a: Action)
    requires |s0.m.slots| > 0 && Stalled(s0, s) && Enabled(s.m, a) && a.TakeTicket?
    ensures Stalled(s0, Step(s, a))
  {
    var s' := Step(s, a);
    forall j | 0 <= j < |s.m.slots| ensures OnlyBy(s', |s0.h.issued|, j) {
      assert OnlyBy(s, |s0.h.issued|, j);
    }
  }

  /** The slot the consumer waits at is `d` tickets away, and that ticket has not been taken. */
  lemma PopStalls(s0: State, s: State, a: Action, d: nat)
    requires |s0.m.slots| > 0 && |s0.h.issued| == s0.m.writeIndex && Distance(SharedOf(s0.m), d)
    requires Inv(s) && Stalled(s0, s) && |s.h.issued| <= |s0.h.issued| + d
    requires Enabled(s.m, a) && (a.BeginPop? || a.Consumer?)
    ensures Stalled(s0, Step(s, a))
    ensures a.Consumer? ==> Next(s.m, a, 0).1 == PopNotReady
  {
    var s' := Step(s, a);
    assert OnlyBy(s, |s0.h.issued|, d);
    forall j | 0 <= j < |s.m.slots| ensures OnlyBy(s', |s0.h.issued|, j) {
      assert OnlyBy(s, |s0.h.issued|, j);
    }
  }

  lemma StepStalls(s0: State, s: State, a: Action, d: nat)
    requires Inv(s0) && AtRest(s0.m) && Distance(SharedOf(s0.m), d)
    requires Inv(s) && Stalled(s0, s) && |s.h.issued| <= |s0.h.issued| + d && Enabled(s.m, a)
    ensures Stalled(s0, Step(s, a))
    ensures !Next(s.m, a, 0).1.Rejected? && (a.Consumer? ==> Next(s.m, a, 0).1 == PopNotReady)
    ensures |Step(s, a).h.issued| == |s.h.issued| + if a.TakeTicket? then 1 else 0
  {
    match a
    case TakeTicket(_, _) => TakeStalls(s0, s, a);
    case Producer(p) =>
      if s.m.producers[p].Claiming? {
        ClaimStalls(s0, s, p);
      } else {
        FillStalls(s0, s, p);
      }
    case BeginPop(_) => PopStalls(s0, s, a, d);
    case Consumer => PopStalls(s0, s, a, d);
  }

  lemma {:induction false} RunStalls(s0: State, actions: seq<Action>, s: State, d: nat)
    requires Inv(s0) && AtRest(s0.m) && Distance(SharedOf(s0.m), d)
    requires Run(s0, actions, s) && Starts(actions) <= d
    ensures Inv(s) && Stalled(s0, s) && |s.h.issued| == |s0.h.issued| + Starts(actions)
    decreases |actions|
  {
    RunKeepsInv(s0, actions, s);
    if actions == [] {
      StalledAtRest(s0);
    } else {
      var last := |actions| - 1;
      var s' :| Run(s0, actions[..last], s') && Steps(s', actions[last], s);
      RunStalls(s0, actions[..last], s', d);
      StepStalls(s0, s', actions[last], d);
    }
  }

  lemma {:induction false} NoMoreBurned(issued: seq<Ticket>, issued': seq<Ticket>)
    requires issued <= issued'
    requires forall t :: |issued| <= t < |issued'| ==> !issued'[t].fate.Burned?
    ensures Sums.Total(BurnedWeight(), issued') == Sums.Total(BurnedWeight(), issued)
    decreases |issued'|
  {
    if |issued'| == |issued| {
      assert issued' == issued;
    } else {
      var last := |issued'| - 1;
      NoMoreBurned(issued, issued'[..last]);
      Sums.TotalAppend(BurnedWeight(), issued'[..last], issued'[last]);
      assert issued'[..last] + [issued'[last]] == issued';
    }
  }

  /** The next step, whoever takes it, neither burns a ticket nor lets a pop find anything. */
  ghost predicate StaysSilent(m: Machine)
    requires |m.slots| > 0
  {
    forall a :: Enabled(m, a) ==>
      !Next(m, a, 0).1.Rejected? && (a.Consumer? ==> Next(m, a, 0).1 == PopNotReady)
  }

  lemma RestStalls(s0: State, actions: seq<Action>, s: State, d: nat)
    requires Inv(s0) && AtRest(s0.m) && Distance(SharedOf(s0.m), d) && Schedule(s0, actions, s, d)
    ensures |s.m.slots| == |s0.m.slots| && s.h.consumed == s0.h.consumed && s.m.readIndex == s0.m.readIndex
    ensures TicketsBurned(s.h) == TicketsBurned(s0.h)
    ensures StaysSilent(s.m)
  {
    RunStalls(s0, actions, s, d);
    forall a | Enabled(s.m, a)
      ensures !Next(s.m, a, 0).1.Rejected? && (a.Consumer? ==> Next(s.m, a, 0).1 == PopNotReady)
    {
      StepStalls(s0, s, a, d);
    }
    NoMoreBurned(s0.h.issued, s.h.issued);
  }

  lemma RestGap(n: nat, producers: nat, s0: State)
    requires n > 0 && Reaches(Init(n, producers), s0) && AtRest(s0.m)
    ensures s0.m.writeIndex == s0.m.readIndex + TicketsBurned(s0.h)
  {
    var before :| Run(Init(n, producers), before, s0);
    RestGapIsBurned(n, producers, before, s0);
  }

  lemma RestDistance(n: nat, producers: nat, s0: State)
    requires n > 0 && Reaches(Init(n, producers), s0) && AtRest(s0.m)
    requires SlotOf(TicketsBurned(s0.h), n) != 0
    ensures Inv(s0) && |s0.m.slots| == n && Distance(SharedOf(s0.m), n - SlotOf(TicketsBurned(s0.h), n))
  {
    ReachedInv(n, producers, s0);
    RestGap(n, producers, s0);
    DistanceIsGap(SharedOf(s0.m), SlotOf(TicketsBurned(s0.h), n));
  }

  /**
    After any run has come to rest with `b` tickets burned and `b mod n = k` not 0: in every
    schedule that starts at most `n - k` pushes, nothing is consumed, no further ticket is
    burned, and every pop that comes to its end finds nothing.
   */
  lemma NothingArrivesInAnySchedule(n: nat, producers: nat, s0: State, actions: seq<Action>, s: State)
    requires n > 0 && Reaches(Init(n, producers), s0) && AtRest(s0.m)
    requires SlotOf(TicketsBurned(s0.h), n) != 0
    requires Schedule(s0, actions, s, n - SlotOf(TicketsBurned(s0.h), n))
    ensures |s.m.slots| == n && s.h.consumed == s0.h.consumed && s.m.readIndex == s0.m.readIndex
    ensures TicketsBurned(s.h) == TicketsBurned(s0.h)
    ensures StaysSilent(s.m)
  {
    RestDistance(n, producers, s0);
    RestStalls(s0, actions, s, n - SlotOf(TicketsBurned(s0.h), n));
  }
}
