/**
  Operand-stack accounting for generated bytecode.

  A stack manipulation reports its effect on the operand stack as a `Size`:
  the net change of the stack height (`impact`) and the highest the stack
  rises above its initial height while the manipulation runs (`maximal`).
  Running two manipulations one after the other is `Aggregate`.

  The meaning of a `Size` is given by an independent reference definition:
  a trace of per-step height changes, whose `Effect` is its sum and its
  highest prefix sum. `EffectAppend` shows that `Aggregate` computes exactly
  the effect of running one trace after the other.
*/
module StackManipulation {

  /** How many operand-stack slots a value occupies: none (void), one, or two (long, double). */
  datatype StackSize = Zero | Single | Double

  function Slots(s: StackSize): (n: nat)
    ensures n <= 2
    ensures n == 0 <==> s == Zero
  {
    match s
    case Zero => 0
    case Single => 1
    case Double => 2
  }

  /** Net change of the stack height and the peak height reached, relative to the start. */
  datatype Size = Size(impact: int, maximal: int)

  /** The size of nothing at all; what an empty compound returns. */
  const Empty := Size(0, 0)

  function Max(a: int, b: int): int
  {
    if a < b then b else a
  }

  /** A size some sequence of stack steps can show: the peak is never below the start or the end. */
  predicate Wellformed(s: Size)
  {
    s.maximal >= 0 && s.maximal >= s.impact
  }

  /** The size of pushing one value of the given width. */
  function Increasing(s: StackSize): (r: Size)
    ensures r.impact == Slots(s) && r.maximal == Slots(s)
    ensures Wellformed(r)
  {
    Size(Slots(s), Slots(s))
  }

  /** `a` then `b`: nets add up, and `b`'s peak counts from the height that `a` left behind. */
  function Aggregate(a: Size, b: Size): (r: Size)
    ensures r.impact == a.impact + b.impact
    ensures r.maximal >= a.maximal && r.maximal >= a.impact + b.maximal
    ensures r.maximal == a.maximal || r.maximal == a.impact + b.maximal
  {
    Size(a.impact + b.impact, Max(a.maximal, a.impact + b.maximal))
  }

  // ---------------------------------------------------------------------
  // Reference semantics: traces of stack-height changes

  /** The sum of a trace of height changes. */
  function Net(trace: seq<int>): int
  {
    if trace == [] then 0 else trace[0] + Net(trace[1..])
  }

  /** The highest height the stack reaches along a trace, counting the start (height 0). */
  function Peak(trace: seq<int>): int
  {
    if trace == [] then 0 else Max(0, trace[0] + Peak(trace[1..]))
  }

  function Effect(trace: seq<int>): Size
  {
    Size(Net(trace), Peak(trace))
  }

  lemma EffectOfStep(d: int)
    ensures Effect([d]) == Size(d, Max(0, d))
  {
    var t := [d];
    assert t[1..] == [];
    assert Net(t[1..]) == 0 && Peak(t[1..]) == 0;
    assert Net(t) == d;
    assert Peak(t) == Max(0, d);
  }

  lemma EffectOfPair(d: int, e: int)
    ensures Effect([d, e]) == Size(d + e, Max(0, d + Max(0, e)))
  {
    assert [d, e][1..] == [e];
    EffectOfStep(e);
  }

  /** The peak of a trace is its highest height: no step of it goes above, and the start and the end are below. */
  lemma {:induction false} PeakBounds(trace: seq<int>)
    ensures Peak(trace) >= 0 && Peak(trace) >= Net(trace)
    ensures forall k :: 0 <= k <= |trace| ==> Net(trace[..k]) <= Peak(trace)
  {
    if trace != [] {
      PeakBounds(trace[1..]);
      forall k | 0 <= k <= |trace| ensures Net(trace[..k]) <= Peak(trace) {
        if k > 0 {
          assert trace[..k][1..] == trace[1..][..k - 1];
        }
      }
    }
  }

  /** The peak is attained: some prefix of the trace reaches it. */
  lemma {:induction false} PeakAttained(trace: seq<int>) returns (k: nat)
    ensures k <= |trace| && Net(trace[..k]) == Peak(trace)
  {
    if trace == [] {
      k := 0;
    } else {
      var j := PeakAttained(trace[1..]);
      if trace[0] + Peak(trace[1..]) <= 0 {
        k := 0;
      } else {
        k := j + 1;
        assert trace[..k][1..] == trace[1..][..j];
      }
    }
  }

  /** Every trace has a well-formed effect. */
  lemma EffectWellformed(trace: seq<int>)
    ensures Wellformed(Effect(trace))
  {
    PeakBounds(trace);
  }

  /** `Aggregate` is sound and exact: the size of two traces run in sequence is the aggregate of their sizes. */
  lemma {:induction false} EffectAppend(xs: seq<int>, ys: seq<int>)
    ensures Effect(xs + ys) == Aggregate(Effect(xs), Effect(ys))
  {
    if xs == [] {
      assert xs + ys == ys;
      PeakBounds(ys);
    } else {
      assert (xs + ys)[1..] == xs[1..] + ys;
      EffectAppend(xs[1..], ys);
    }
  }

  /** A trace with a given well-formed size: first rise to the peak, then settle at the net change. */
  function Witness(s: Size): (trace: seq<int>)
    requires Wellformed(s)
    ensures Effect(trace) == s
  {
    var settle := [s.impact - s.maximal];
    assert settle[1..] == [];
    assert Net(settle) == s.impact - s.maximal && Peak(settle) == 0;
    assert ([s.maximal] + settle)[1..] == settle;
    [s.maximal] + settle
  }

  /** Exactly the well-formed sizes are effects of traces. */
  lemma WellformedIffRealizable(s: Size)
    ensures Wellformed(s) <==> exists t :: Effect(t) == s
  {
    if Wellformed(s) {
      var t := Witness(s);
      assert Effect(t) == s;
    } else {
      forall t | true ensures Effect(t) != s {
        EffectWellformed(t);
      }
    }
  }

  /** Sequencing is associative: grouping does not change the combined size. */
  lemma AggregateAssociative(a: Size, b: Size, c: Size)
    ensures Aggregate(Aggregate(a, b), c) == Aggregate(a, Aggregate(b, c))
  {
  }

  /** `Empty` is a neutral element for well-formed sizes, on either side. */
  lemma AggregateEmpty(a: Size)
    requires Wellformed(a)
    ensures Aggregate(Empty, a) == a && Aggregate(a, Empty) == a
  {
  }

  /** Sequencing keeps sizes well-formed. */
  lemma AggregateWellformed(a: Size, b: Size)
    requires Wellformed(a) && Wellformed(b)
    ensures Wellformed(Aggregate(a, b))
  {
  }
}
