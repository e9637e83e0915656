/**
  Weighted sums over the threads (or slots) of a state: what one update does to a
  sum, and what a pointwise bound says about it.
 */
module Sums {

  function Total<T>(weight: T -> nat, s: seq<T>): nat
  {
    if s == [] then 0 else weight(s[0]) + Total(weight, s[1..])
  }

  lemma {:induction false} TotalUpdate<T>(weight: T -> nat, s: seq<T>, i: nat, x: T)
    requires i < |s|
    ensures Total(weight, s[i := x]) + weight(s[i]) == Total(weight, s) + weight(x)
  {
    if i == 0 {
      assert s[i := x][1..] == s[1..];
    } else {
      assert s[i := x][1..] == s[1..][i - 1 := x];
      TotalUpdate(weight, s[1..], i - 1, x);
    }
  }

  lemma {:induction false} TotalAppend<T>(weight: T -> nat, s: seq<T>, x: T)
    ensures Total(weight, s + [x]) == Total(weight, s) + weight(x)
  {
    if s == [] {
      assert (s + [x])[1..] == [];
    } else {
      assert (s + [x])[1..] == s[1..] + [x];
      TotalAppend(weight, s[1..], x);
    }
  }

  /** One element weighs no more than all of them. */
  lemma {:induction false} TotalAtLeast<T>(weight: T -> nat, s: seq<T>, i: nat)
    requires i < |s|
    ensures weight(s[i]) <= Total(weight, s)
  {
    if i > 0 {
      TotalAtLeast(weight, s[1..], i - 1);
    }
  }

  /** A positive sum has a positive element. */
  lemma {:induction false} TotalPositive<T>(weight: T -> nat, s: seq<T>) returns (i: nat)
    requires Total(weight, s) > 0
    ensures i < |s| && weight(s[i]) > 0
  {
    if weight(s[0]) > 0 {
      i := 0;
    } else {
      i := TotalPositive(weight, s[1..]);
      i := i + 1;
    }
  }

  lemma {:induction false} TotalZero<T>(weight: T -> nat, s: seq<T>)
    requires forall i :: 0 <= i < |s| ==> weight(s[i]) == 0
    ensures Total(weight, s) == 0
  {
    if s != [] {
      assert forall i :: 0 <= i < |s[1..]| ==> s[1..][i] == s[i + 1];
      TotalZero(weight, s[1..]);
    }
  }

  /** If nothing but element `t` grows by more than `slack`, neither does the sum. */
  lemma {:induction false} TotalChange<T>(w0: T -> nat, s0: seq<T>, w1: T -> nat, s1: seq<T>, t: nat, slack: nat)
    requires t < |s0| == |s1|
    requires forall i :: 0 <= i < |s0| && i != t ==> w1(s1[i]) <= w0(s0[i]) + slack
    ensures Total(w1, s1) + w0(s0[t]) <= Total(w0, s0) + w1(s1[t]) + slack * (|s0| - 1)
  {
    assert forall i :: 0 <= i < |s0[1..]| ==> s0[1..][i] == s0[i + 1] && s1[1..][i] == s1[i + 1];
    if t == 0 {
      TotalGrowth(w0, s0[1..], w1, s1[1..], slack);
    } else {
      TotalChange(w0, s0[1..], w1, s1[1..], t - 1, slack);
      assert slack * (|s0| - 1) == slack * (|s0[1..]| - 1) + slack;
    }
  }

  /** If no element grows by more than `slack`, the sum grows by at most `slack` an element. */
  lemma {:induction false} TotalGrowth<T>(w0: T -> nat, s0: seq<T>, w1: T -> nat, s1: seq<T>, slack: nat)
    requires |s0| == |s1|
    requires forall i :: 0 <= i < |s0| ==> w1(s1[i]) <= w0(s0[i]) + slack
    ensures Total(w1, s1) <= Total(w0, s0) + slack * |s0|
  {
    if s0 != [] {
      assert forall i :: 0 <= i < |s0[1..]| ==> s0[1..][i] == s0[i + 1] && s1[1..][i] == s1[i + 1];
      TotalGrowth(w0, s0[1..], w1, s1[1..], slack);
      assert slack * |s0| == slack * |s0[1..]| + slack;
    }
  }
}
