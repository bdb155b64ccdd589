# Fibonacci jewelry design — verified model

This project models the non-graphical core of a small jewelry-design program.
The class `FibonacciJewelryDesign` takes a bound (`max_value`, 16 by default).
At construction it generates a bounded Fibonacci sequence: start from `[0, 1]`,
then append the next Fibonacci number while the current last one is below the bound.
So the last element is the first Fibonacci number (from index 1 on) that reaches the bound.

From that sequence the design builds two pattern styles:

- A **spiral** pattern has one `("jump-ring", v)` element per value `v`.
- A **repeating** pattern has, for the i-th value `v`, a block of `16 + i` copies of
  `("chain-link", v)`.

Asking for any other pattern type is an error.

The model has three modules:

- `Fibonacci` (fibonacci.dfy): the Fibonacci numbers, the cutoff index, and
  `BoundedSequence`, the reference definition of the generated sequence, with its
  properties.
- `Patterns` (patterns.dfy): the shape tags (`JumpRing`, `ChainLink`), the pattern
  elements, the error result, and the reference definitions `SpiralPattern` and
  `RepeatingPattern`, with their length and block-contents lemmas.
- `Design` (design.dfy): the class `FibonacciJewelryDesign` with the fields
  `maxValue` and `fibonacciSequence`. Its methods build the lists with loops, as
  the program does. Each method is proved equal to the reference definition.
  Three client methods follow the path the window's "Generate Design" button
  takes, with the default bound.

Python integers are unbounded, so `int` is used with no wrap-around. The pattern
type stays a `string`, so a failure on any other string can be stated. Python's
`ValueError` becomes `Err(InvalidPatternType)`.

The first size of every pattern is `0`, because the sequence starts at
`Fib(0) = 0`. The pattern type is compared as a string, as `generate_pattern`
does (interface.py:23-28).

## Model

| member | source | states |
|---|---|---|
| `Fibonacci.BoundedSequence` | interface.py:14-20 | the sequence starts 0, 1; every element from index 2 on is the sum of the two before it; the last element is at least the bound |
| `Fibonacci.CutoffIsFirst` | interface.py:17-19 | the loop stops at the first index k >= 1 whose Fibonacci number reaches the bound, and at no other |
| `Fibonacci.SmallBoundGivesSeed` | interface.py:15-17 | a bound of at most 1 gives exactly [0, 1] (the loop body never runs) |
| `Fibonacci.Overshoot` | interface.py:17-19 | a bound above 1 gives a last element at or above the bound and every earlier element strictly below it |
| `Fibonacci.BoundedSequenceSorted` | interface.py:15-19 | the sequence never decreases, and from index 2 on it strictly increases |
| `Fibonacci.BoundedSequenceUnique` | interface.py:14-20 | any sequence that starts 0, 1, follows the recurrence, ends at or above the bound and stays below it before the end is the generated sequence |
| `Fibonacci.DefaultSequence` | interface.py:10-20 | the default bound 16 gives [0, 1, 1, 2, 3, 5, 8, 13, 21] |
| `Design.FibonacciJewelryDesign.constructor` | interface.py:10-12 | stores the bound (16 by default) and the bounded sequence it yields |
| `Design.FibonacciJewelryDesign.GenerateFibonacciSequence` | interface.py:14-20 | the loop over a, b ends, and its result equals the bounded sequence of the stored bound |
| `Design.FibonacciJewelryDesign.GenerateSpiralPattern` | interface.py:30-34 | the appending loop yields the spiral pattern of the stored sequence |
| `Design.FibonacciJewelryDesign.GenerateRepeatingPattern` | interface.py:36-42 | the extending loop, with a group size starting at 16 and growing by one, yields the repeating pattern of the stored sequence |
| `Design.FibonacciJewelryDesign.GeneratePattern` | interface.py:22-28 | "spiral" gives the spiral pattern and "repeating" the repeating one; any other string is an error; the bound and the sequence are unchanged |
| `Patterns.Repeat` | interface.py:40 | a list of n copies of one element |
| `Patterns.SpiralPattern` | interface.py:30-34 | the spiral pattern has the sequence's length, and element i is a jump-ring of size s[i] |
| `Patterns.RepeatingPattern` | interface.py:36-42 | the repeating pattern's length is the sum over i of 16 + i |
| `Patterns.BlockStartClosedForm` | interface.py:38-41 | that sum is 16n + n(n-1)/2 for n values |
| `Patterns.RepeatingBlock` | interface.py:38-41 | the block starting at the sum of the earlier group sizes holds exactly 16 + i chain-links of size s[i], so the blocks are in sequence order |
| `Patterns.RepeatingElementInBlock` | interface.py:38-41 | every element of the repeating pattern lies in some block i and is a chain-link of size s[i] |
| `Design.DefaultSpiral` | interface.py:86-89 | a default design asked for "spiral" gives exactly the nine jump-rings of sizes 0, 1, 1, 2, 3, 5, 8, 13, 21, in that order |
| `Design.DefaultRepeating` | interface.py:86-89 | a default design asked for "repeating" gives 180 chain-links |
| `Design.UnsetSelection` | interface.py:86-89 | the empty pattern type that an unset selector yields is an error |

## Left out

- `visualize_pattern` (interface.py:44-61) is not modelled. It draws with a plotting library and uses floating-point geometry (circles, and sampled ellipses with semi-axes size/2 and size/4).
- `JewelryDesignGUI` (interface.py:63-90) and the module-level window and event loop (interface.py:92-94) are not modelled. They are widget and event-loop plumbing. The three `Design.Default*`/`UnsetSelection` methods stand in for its button callback, without the drawing.
- A non-integer `max_value` is not modelled. Python accepts one, but the model's bound is an `int`.
- The error message text of the `ValueError` is not modelled. Only the error itself is.
- GenerateSpiralPattern: the claim that it leaves the design unchanged is not stated in its ensures. It has no `modifies` clause, so Dafny's frame rule guarantees it. The same holds for GenerateRepeatingPattern. `GeneratePattern` states it explicitly.
