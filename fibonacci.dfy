/** The bounded Fibonacci sequence that sizes every jewelry pattern.
    The design object computes it with a loop (see module Design); this
    module gives the independent definition the loop is proved against,
    and the properties of that definition. */
module Fibonacci {

  /** The n-th Fibonacci number: 0, 1, 1, 2, 3, 5, 8, ... */
  ghost function Fib(n: nat): nat
  {
    if n < 2 then n else Fib(n - 1) + Fib(n - 2)
  }

  lemma {:induction false} FibPositive(n: nat)
    requires n >= 1
    ensures Fib(n) >= 1
  {
    if n > 2 {
      FibPositive(n - 1);
    }
  }

  /** Fibonacci numbers never decrease along the index, and from index 2
      on they strictly increase. */
  lemma {:induction false} FibMonotone(i: nat, j: nat)
    requires i <= j
    ensures Fib(i) <= Fib(j)
    ensures 2 <= i < j ==> Fib(i) < Fib(j)
  {
    if i < j {
      FibMonotone(i, j - 1);
      if j >= 2 {
        assert Fib(j) == Fib(j - 1) + Fib(j - 2);
      }
      if j >= 3 {
        FibPositive(j - 2);
      }
    }
  }

  /** The smallest index k >= start with Fib(k) >= maxValue. From index 2 on,
      Fib strictly increases, so the search ends. */
  ghost function CutoffFrom(maxValue: int, start: nat): (k: nat)
    requires start >= 2
    ensures k >= start && Fib(k) >= maxValue
    ensures forall j :: start <= j < k ==> Fib(j) < maxValue
    decreases maxValue - Fib(start)
  {
    if Fib(start) >= maxValue then start
    else
      FibPositive(start - 1);
      CutoffFrom(maxValue, start + 1)
  }

  /** The smallest index k >= 1 with Fib(k) >= maxValue: the index of the
      last element of the generated sequence. */
  ghost function Cutoff(maxValue: int): nat
  {
    if Fib(1) >= maxValue then 1 else CutoffFrom(maxValue, 2)
  }

  /** Any index k >= 1 whose Fibonacci number reaches the bound, with every
      index in [1, k) below it, is the cutoff. */
  lemma CutoffIsFirst(maxValue: int, k: nat)
    requires k >= 1 && Fib(k) >= maxValue
    requires forall j :: 1 <= j < k ==> Fib(j) < maxValue
    ensures Cutoff(maxValue) == k
  {
  }

  /** Fib(0), ..., Fib(n - 1). */
  ghost function FibPrefix(n: nat): (s: seq<nat>)
    ensures |s| == n
  {
    seq(n, i requires 0 <= i => Fib(i))
  }

  /** The sequence of the design with bound maxValue: the Fibonacci numbers
      from Fib(0) up to and including the first one (from index 1 on) that is
      at least maxValue. */
  ghost function BoundedSequence(maxValue: int): (s: seq<nat>)
    ensures |s| >= 2 && s[0] == 0 && s[1] == 1
    ensures forall i :: 2 <= i < |s| ==> s[i] == s[i - 1] + s[i - 2]
    ensures s[|s| - 1] >= maxValue
  {
    var k := Cutoff(maxValue);
    assert k >= 1 && Fib(k) >= maxValue by {
      if Fib(1) < maxValue {
        var c := CutoffFrom(maxValue, 2);
      }
    }
    FibPrefix(k + 1)
  }

  /** With a bound of at most 1 the loop never runs: the sequence is the seed. */
  lemma SmallBoundGivesSeed(maxValue: int)
    requires maxValue <= 1
    ensures BoundedSequence(maxValue) == [0, 1]
  {
  }

  /** With a bound above 1 the sequence overshoots by exactly one element:
      the last element reaches the bound and every earlier one is below it. */
  lemma Overshoot(maxValue: int)
    requires maxValue > 1
    ensures var s := BoundedSequence(maxValue);
      s[|s| - 1] >= maxValue &&
      forall i :: 0 <= i < |s| - 1 ==> s[i] < maxValue
  {
  }

  /** The sequence never decreases, and it strictly increases from index 2. */
  lemma BoundedSequenceSorted(maxValue: int, i: nat, j: nat)
    requires i <= j < |BoundedSequence(maxValue)|
    ensures BoundedSequence(maxValue)[i] <= BoundedSequence(maxValue)[j]
    ensures 2 <= i < j ==> BoundedSequence(maxValue)[i] < BoundedSequence(maxValue)[j]
  {
    var s := BoundedSequence(maxValue);
    var k := Cutoff(maxValue);
    if Fib(1) < maxValue {
      var c := CutoffFrom(maxValue, 2);
    }
    assert s == FibPrefix(k + 1);
    assert s[i] == Fib(i) && s[j] == Fib(j);
    FibMonotone(i, j);
  }

  /** The bounded sequence is the only sequence that starts 0, 1, follows
      the Fibonacci recurrence, ends at or above the bound and has every
      element before its last below the bound (save the seed when the bound
      is at most 1). */
  lemma BoundedSequenceUnique(maxValue: int, t: seq<int>)
    requires |t| >= 2 && t[0] == 0 && t[1] == 1
    requires forall i :: 2 <= i < |t| ==> t[i] == t[i - 1] + t[i - 2]
    requires t[|t| - 1] >= maxValue
    requires forall i :: 1 <= i < |t| - 1 ==> t[i] < maxValue
    ensures t == BoundedSequence(maxValue)
  {
    var k := |t| - 1;
    assert forall i :: 0 <= i < |t| ==> t[i] == Fib(i) by {
      AgreesWithFib(t, |t|);
    }
    CutoffIsFirst(maxValue, k);
    assert BoundedSequence(maxValue) == FibPrefix(k + 1);
  }

  lemma {:induction false} AgreesWithFib(t: seq<int>, n: nat)
    requires 2 <= n <= |t| && t[0] == 0 && t[1] == 1
    requires forall i :: 2 <= i < |t| ==> t[i] == t[i - 1] + t[i - 2]
    ensures forall i :: 0 <= i < n ==> t[i] == Fib(i)
  {
    if n > 2 {
      AgreesWithFib(t, n - 1);
      assert t[n - 1] == t[n - 2] + t[n - 3];
    }
  }

  /** The default bound of the design is 16. */
  const DefaultMaxValue: int := 16

  /** With the default bound the sequence is 0, 1, 1, 2, 3, 5, 8, 13, 21:
      13 is below 16, so 21 is appended. */
  lemma DefaultSequence()
    ensures BoundedSequence(DefaultMaxValue) == [0, 1, 1, 2, 3, 5, 8, 13, 21]
  {
  }
}
