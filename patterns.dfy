/** Jewelry patterns: ordered lists of (shape, size) elements built from a
    sequence of sizes, and the specification of the two pattern styles. */
module Patterns {

  /** The two shape tags of the design: "jump-ring" and "chain-link". */
  datatype Shape = JumpRing | ChainLink

  /** One element of a pattern: a shape and its size. */
  datatype Element = Element(shape: Shape, size: int)

  /** The one error of pattern building: a pattern type other than
      "spiral" or "repeating". */
  datatype PatternError = InvalidPatternType

  datatype Result<T> = Ok(value: T) | Err(error: PatternError)

  /** The group size of the first block of a repeating pattern. */
  const InitialGroupSize: nat := 16

  /** n copies of e, in the sense of a list multiplied by n. */
  function Repeat(e: Element, n: nat): (r: seq<Element>)
    ensures |r| == n
    ensures forall i :: 0 <= i < n ==> r[i] == e
  {
    seq(n, _ => e)
  }

  /** The spiral pattern: one jump-ring per size, in order. */
  ghost function SpiralPattern(s: seq<int>): (r: seq<Element>)
    ensures |r| == |s|
    ensures forall i :: 0 <= i < |s| ==> r[i] == Element(JumpRing, s[i])
  {
    if s == [] then []
    else SpiralPattern(s[..|s| - 1]) + [Element(JumpRing, s[|s| - 1])]
  }

  /** The size of block i of a repeating pattern. */
  function GroupSize(i: nat): nat
  {
    InitialGroupSize + i
  }

  /** Where block i of a repeating pattern starts: the sum of
      GroupSize(k) for k < i. */
  ghost function BlockStart(i: nat): nat
  {
    if i == 0 then 0 else BlockStart(i - 1) + GroupSize(i - 1)
  }

  /** The sum of 16 + k over k < i in closed form. */
  lemma {:induction false} BlockStartClosedForm(i: nat)
    ensures 2 * BlockStart(i) == 2 * InitialGroupSize * i + i * (i - 1)
  {
    if i > 0 {
      BlockStartClosedForm(i - 1);
    }
  }

  /** The repeating pattern: for the i-th size v, GroupSize(i) copies of a
      chain-link of size v, the blocks in sequence order. */
  ghost function RepeatingPattern(s: seq<int>): (r: seq<Element>)
    ensures |r| == BlockStart(|s|)
  {
    if s == [] then []
    else
      RepeatingPattern(s[..|s| - 1])
        + Repeat(Element(ChainLink, s[|s| - 1]), GroupSize(|s| - 1))
  }

  /** Block i of the repeating pattern consists of GroupSize(i) chain-links
      of size s[i]. */
  lemma {:induction false} RepeatingBlock(s: seq<int>, i: nat, j: nat)
    requires i < |s| && j < GroupSize(i)
    ensures BlockStart(i) + j < |RepeatingPattern(s)|
    ensures RepeatingPattern(s)[BlockStart(i) + j] == Element(ChainLink, s[i])
  {
    var n := |s| - 1;
    var prefix := s[..n];
    assert RepeatingPattern(s)
      == RepeatingPattern(prefix) + Repeat(Element(ChainLink, s[n]), GroupSize(n));
    if i < n {
      BlockStartGrows(i + 1, n);
      RepeatingBlock(prefix, i, j);
    }
  }

  lemma {:induction false} BlockStartGrows(i: nat, j: nat)
    requires i <= j
    ensures BlockStart(i) <= BlockStart(j)
  {
    if i < j {
      BlockStartGrows(i, j - 1);
    }
  }

  /** Every element of a repeating pattern lies in a block: the
      index p belongs to the block i with BlockStart(i) <= p < BlockStart(i + 1). */
  lemma {:induction false} RepeatingElementInBlock(s: seq<int>, p: nat)
    requires p < |RepeatingPattern(s)|
    ensures exists i ::
              0 <= i < |s| && BlockStart(i) <= p < BlockStart(i + 1) &&
              RepeatingPattern(s)[p] == Element(ChainLink, s[i])
  {
    var n := |s| - 1;
    if p >= BlockStart(n) {
      RepeatingBlock(s, n, p - BlockStart(n));
    } else {
      var prefix := s[..n];
      assert RepeatingPattern(s)
        == RepeatingPattern(prefix) + Repeat(Element(ChainLink, s[n]), GroupSize(n));
      RepeatingElementInBlock(prefix, p);
      var i :| 0 <= i < n && BlockStart(i) <= p < BlockStart(i + 1)
        && RepeatingPattern(prefix)[p] == Element(ChainLink, prefix[i]);
      assert RepeatingPattern(s)[p] == Element(ChainLink, s[i]);
    }
  }
}
