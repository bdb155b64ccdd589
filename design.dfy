/** The design object: it fixes a bound, generates the bounded Fibonacci
    sequence once at construction, and builds spiral or repeating patterns
    from that sequence on request. */
module Design {
  import opened Fibonacci
  import opened Patterns

  class FibonacciJewelryDesign {
    var maxValue: int
    var fibonacciSequence: seq<int>

    /** Stores the bound (16 when none is given) and the sequence it yields. */
    constructor (maxValue: int := DefaultMaxValue)
      ensures this.maxValue == maxValue
      ensures fibonacciSequence == BoundedSequence(maxValue)
    {
      this.maxValue := maxValue;
      new;
      fibonacciSequence := GenerateFibonacciSequence();
    }

    /** Starting from [0, 1], appends the next Fibonacci number while the
        current last one is below the bound. */
    method GenerateFibonacciSequence() returns (sequence: seq<int>)
      ensures sequence == BoundedSequence(maxValue)
    {
      sequence := [0, 1];
      var a, b := 0, 1;
      ghost var k: nat := 1;
      while b < maxValue
        invariant k >= 1 && a == Fib(k - 1) && b == Fib(k)
        invariant 0 <= a <= b && 1 <= b
        invariant sequence == FibPrefix(k + 1)
        invariant forall j :: 1 <= j < k ==> Fib(j) < maxValue
        // b alone stays at 1 on the first step; a + b strictly grows
        decreases 2 * maxValue - (a + b)
      {
        a, b := b, a + b;
        k := k + 1;
        sequence := sequence + [b];
      }
      CutoffIsFirst(maxValue, k);
    }

    /** One jump-ring per sequence value, in order. */
    method GenerateSpiralPattern() returns (pattern: seq<Element>)
      ensures pattern == SpiralPattern(fibonacciSequence)
    {
      pattern := [];
      for i := 0 to |fibonacciSequence|
        invariant pattern == SpiralPattern(fibonacciSequence[..i])
      {
        var value := fibonacciSequence[i];
        assert fibonacciSequence[..i + 1][..i] == fibonacciSequence[..i];
        pattern := pattern + [Element(JumpRing, value)];
      }
      assert fibonacciSequence[..|fibonacciSequence|] == fibonacciSequence;
    }

    /** For the i-th sequence value, a group of 16 + i chain-links of that
        size; the group size starts at 16 and grows by one per value. */
    method GenerateRepeatingPattern() returns (pattern: seq<Element>)
      ensures pattern == RepeatingPattern(fibonacciSequence)
    {
      pattern := [];
      var groupSize := InitialGroupSize;
      for i := 0 to |fibonacciSequence|
        invariant groupSize == GroupSize(i)
        invariant pattern == RepeatingPattern(fibonacciSequence[..i])
      {
        var value := fibonacciSequence[i];
        assert fibonacciSequence[..i + 1][..i] == fibonacciSequence[..i];
        pattern := pattern + Repeat(Element(ChainLink, value), groupSize);
        groupSize := groupSize + 1;
      }
      assert fibonacciSequence[..|fibonacciSequence|] == fibonacciSequence;
    }

    /** Dispatches on the pattern type; any string other than "spiral" and
        "repeating", the empty one included, is an error. The design itself
        is left as it was. */
    method GeneratePattern(patternType: string) returns (r: Result<seq<Element>>)
      ensures patternType == "spiral" ==> r == Ok(SpiralPattern(fibonacciSequence))
      ensures patternType == "repeating" ==> r == Ok(RepeatingPattern(fibonacciSequence))
      ensures patternType != "spiral" && patternType != "repeating" ==> r == Err(InvalidPatternType)
      ensures unchanged(this)
    {
      if patternType == "spiral" {
        var pattern := GenerateSpiralPattern();
        r := Ok(pattern);
      } else if patternType == "repeating" {
        var pattern := GenerateRepeatingPattern();
        r := Ok(pattern);
      } else {
        r := Err(InvalidPatternType);
      }
    }
  }

  /** A default design asked for a spiral gives exactly nine jump-rings,
      sized 0, 1, 1, 2, 3, 5, 8, 13, 21 in that order. */
  method DefaultSpiral() returns (r: Result<seq<Element>>)
    ensures r == Ok([Element(JumpRing, 0), Element(JumpRing, 1), Element(JumpRing, 1),
                     Element(JumpRing, 2), Element(JumpRing, 3), Element(JumpRing, 5),
                     Element(JumpRing, 8), Element(JumpRing, 13), Element(JumpRing, 21)])
  {
    var design := new FibonacciJewelryDesign();
    DefaultSequence();
    r := design.GeneratePattern("spiral");
    var rings := [Element(JumpRing, 0), Element(JumpRing, 1), Element(JumpRing, 1),
                  Element(JumpRing, 2), Element(JumpRing, 3), Element(JumpRing, 5),
                  Element(JumpRing, 8), Element(JumpRing, 13), Element(JumpRing, 21)];
    assert |r.value| == |rings|;
    assert forall i :: 0 <= i < |rings| ==> r.value[i] == rings[i];
    assert r.value == rings;
  }

  /** A default design asked for a repeating pattern gives 16 + 17 + ... + 24
      = 180 chain-links. */
  method DefaultRepeating() returns (r: Result<seq<Element>>)
    ensures r.Ok? && |r.value| == 180
    ensures forall e :: e in r.value ==> e.shape == ChainLink
  {
    var design := new FibonacciJewelryDesign();
    DefaultSequence();
    r := design.GeneratePattern("repeating");
    BlockStartClosedForm(9);
    forall e | e in r.value
      ensures e.shape == ChainLink
    {
      var p :| 0 <= p < |r.value| && r.value[p] == e;
      RepeatingElementInBlock(design.fibonacciSequence, p);
    }
  }

  /** An unset pattern selector yields the empty string, which is refused. */
  method UnsetSelection() returns (r: Result<seq<Element>>)
    ensures r == Err(InvalidPatternType)
  {
    var design := new FibonacciJewelryDesign();
    r := design.GeneratePattern("");
  }
}
