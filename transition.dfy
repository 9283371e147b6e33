/** The smooth-transition closure of `command::default` (src/command.rs):
    an inclusive byte range sampled every tenth value, reversed when the ramp
    goes down. */
module Stepping {
  import opened Common

  /** The sampling stride, fixed in the source; `brightness.step` is not used. */
  const Stride: nat := 10

  function Min(a: Byte, b: Byte): Byte { if a <= b then a else b }

  function Max(a: Byte, b: Byte): Byte { if a <= b then b else a }

  /** `(lo..=hi).step_by(step)`: `lo`, `lo + step`, ... while not above `hi`. */
  function StepBy(lo: Byte, hi: Byte, step: nat): seq<Byte>
    requires lo <= hi && step > 0
    decreases hi - lo
  {
    if lo + step > hi then [lo] else [lo] + StepBy(lo + step, hi, step)
  }

  /** `values.reverse()` applied to a copy. */
  function Reversed(s: seq<Byte>): (r: seq<Byte>)
    ensures |r| == |s|
    ensures forall i :: 0 <= i < |s| ==> r[i] == s[|s| - 1 - i]
  {
    seq(|s|, i requires 0 <= i < |s| => s[|s| - 1 - i])
  }

  /** The `transition` closure: the values sent, in order, to ramp from `from` to `to`. */
  function Transition(from: Byte, to: Byte): (r: seq<Byte>)
    ensures |r| > 0
    ensures from <= to ==> r[0] == from
    ensures from > to ==> r[|r| - 1] == to
  {
    var values := StepBy(Min(from, to), Max(from, to), Stride);
    if from > to then Reversed(values) else values
  }

  /** Reversing twice gives the values back. */
  lemma ReversedInvolutive(s: seq<Byte>)
    ensures Reversed(Reversed(s)) == s
  {
  }

  /** Removing the first value: the reversal of the rest, then that value. */
  lemma ReversedTail(s: seq<Byte>)
    requires s != []
    ensures Reversed(s) == Reversed(s[1..]) + [s[0]]
  {
  }

  /** Reversing only reorders: the same values, each as often. */
  lemma {:induction false} ReversedPermutes(s: seq<Byte>)
    ensures multiset(Reversed(s)) == multiset(s)
  {
    if s != [] {
      ReversedTail(s);
      ReversedPermutes(s[1..]);
      assert s == [s[0]] + s[1..];
    }
  }

  lemma OneMoreStride(k: int, step: nat)
    ensures k * step + step == (k + 1) * step
  {
  }

  /** The sampled range has `n` elements, where `n` is the number of strides
      that fit: the last element `lo + (n - 1) * step` is at most `hi` and one
      more stride would pass it; its `i`-th element is `lo + i * step`. */
  lemma {:induction false} StepByShape(lo: Byte, hi: Byte, step: nat)
    requires lo <= hi && step > 0
    ensures var n := |StepBy(lo, hi, step)|;
      n > 0 && lo + (n - 1) * step <= hi < lo + n * step
    ensures forall i :: 0 <= i < |StepBy(lo, hi, step)| ==> StepBy(lo, hi, step)[i] == lo + i * step
    decreases hi - lo
  {
    var s := StepBy(lo, hi, step);
    if lo + step <= hi {
      var t := StepBy(lo + step, hi, step);
      StepByShape(lo + step, hi, step);
      assert |s| == |t| + 1;
      OneMoreStride(|t| - 1, step);
      OneMoreStride(|t|, step);
      forall i | 0 <= i < |s| ensures s[i] == lo + i * step {
        if i > 0 {
          assert s[i] == t[i - 1];
          OneMoreStride(i - 1, step);
        }
      }
    }
  }

  /** Every value lies between the two endpoints, the ramp is never empty, and
      its length depends on the endpoints alone. */
  lemma TransitionInRange(from: Byte, to: Byte)
    ensures |Transition(from, to)| == (Max(from, to) - Min(from, to)) / 10 + 1
    ensures forall i :: 0 <= i < |Transition(from, to)| ==>
              Min(from, to) <= Transition(from, to)[i] <= Max(from, to)
  {
    StepByShape(Min(from, to), Max(from, to), Stride);
    var n := (Max(from, to) - Min(from, to)) / 10;
    assert Min(from, to) + n * 10 <= Max(from, to);
  }

  /** Upward ramp in closed form: `(to - from) / 10 + 1` values, the `i`-th
      being `i` strides above `from`. */
  lemma AscendingClosedForm(from: Byte, to: Byte)
    requires from <= to
    ensures var values := Transition(from, to);
      && |values| == (to - from) / 10 + 1
      && forall i :: 0 <= i < |values| ==> values[i] == from + i * 10
  {
    StepByShape(from, to, Stride);
    TransitionInRange(from, to);
  }

  /** Upward ramp: starts at `from`, climbs by exactly 10, and ends at the
      last multiple-of-10 offset, which is `to` only when the distance is a
      multiple of 10. */
  lemma TransitionAscending(from: Byte, to: Byte)
    requires from <= to
    ensures var values := Transition(from, to);
      && values[0] == from
      && (forall i :: 0 <= i < |values| - 1 ==> values[i + 1] == values[i] as int + 10)
      && values[|values| - 1] == from + (to - from) / 10 * 10
      && (values[|values| - 1] == to <==> (to - from) % 10 == 0)
  {
    StepByShape(from, to, Stride);
  }

  /** Downward ramp: the exact reverse of the upward ramp between the same
      endpoints. */
  lemma TransitionMirror(from: Byte, to: Byte)
    requires from > to
    ensures Transition(from, to) == Reversed(Transition(to, from))
  {
  }

  /** Downward ramp in closed form: `(from - to) / 10 + 1` values, the `i`-th
      being `i` strides below the highest aligned value. */
  lemma DescendingClosedForm(from: Byte, to: Byte)
    requires from > to
    ensures var values := Transition(from, to);
      && |values| == (from - to) / 10 + 1
      && forall i :: 0 <= i < |values| ==> values[i] == to + ((from - to) / 10 - i) * 10
  {
    StepByShape(to, from, Stride);
    TransitionInRange(from, to);
  }

  /** Downward ramp, element by element: it descends by exactly 10 and always
      ends at `to`, but it starts at `from` only when the distance is a
      multiple of 10. */
  lemma TransitionDescending(from: Byte, to: Byte)
    requires from > to
    ensures var values := Transition(from, to);
      && values[|values| - 1] == to
      && (forall i :: 0 <= i < |values| - 1 ==> values[i + 1] == values[i] as int - 10)
      && values[0] == to + (from - to) / 10 * 10
      && (values[0] == from <==> (from - to) % 10 == 0)
  {
    DescendingClosedForm(from, to);
  }

  /** An aligned ramp up reaches the target: 0 to 100 is 0, 10, ..., 100. */
  lemma AlignedRampUp()
    ensures Transition(0, 100) == [0, 10, 20, 30, 40, 50, 60, 70, 80, 90, 100]
  {
    AscendingClosedForm(0, 100);
  }

  /** The ramp down between the same endpoints is its exact reverse. */
  lemma AlignedRampDown()
    ensures Transition(100, 0) == [100, 90, 80, 70, 60, 50, 40, 30, 20, 10, 0]
  {
    DescendingClosedForm(100, 0);
  }

  /** A non-aligned ramp up stops short of the target (0 to 15 ends at 10),
      while the ramp down from 15 skips 15 and ends at 0. */
  lemma UnalignedRamps()
    ensures Transition(0, 15) == [0, 10]
    ensures Transition(15, 0) == [10, 0]
  {
    TransitionInRange(0, 15);
    TransitionAscending(0, 15);
    TransitionInRange(15, 0);
    TransitionDescending(15, 0);
  }
}
