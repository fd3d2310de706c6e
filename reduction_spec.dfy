/**
 * What the reductions of `fvo_detail` compute, stated on sequences of samples.
 *
 * `reduceFallback` is a left fold of the scalar operation. The vector path keeps
 * one accumulator per lane, updates each lane with the same operation, and
 * combines the lanes at the end (`xsimd::reduce_add` or `xsimd::reduce_max`).
 * The lemmas here show that for the operations the library reduces with (a
 * running sum of a term, and the running maximum of magnitudes) the lanes always
 * stand for the scalar fold of everything read so far, so both paths agree.
 */
module ReductionSpec {

  // ---------------------------------------------------------------------------
  // Scalar helpers

  /** `std::abs`. */
  function Abs(x: real): (r: real)
    ensures r >= 0.0 && (r == x || r == -x)
  {
    if x < 0.0 then -x else x
  }

  /** `juce::jmax (a, b)`: `a < b ? b : a`. */
  function Max(a: real, b: real): (r: real)
    ensures r >= a && r >= b && (r == a || r == b)
  {
    if a < b then b else a
  }

  // ---------------------------------------------------------------------------
  // One-source reductions

  /**
   * The scalar operations the library reduces one source with:
   * `AddTerm (f)` is `prev + f (next)` (a sum, or a sum of squares);
   * `MaxAbs (true)` is `jmax (|prev|, |next|)` (the `float` absolute maximum) and
   * `MaxAbs (false)` is `jmax (prev, |next|)` (the `double` one).
   */
  datatype Reduction = AddTerm(term: real -> real) | MaxAbs(absOfAccumulator: bool)

  /** The magnitude the accumulator enters a `MaxAbs` step with. */
  function Start(absOfAccumulator: bool, acc: real): real
  {
    if absOfAccumulator then Abs(acc) else acc
  }

  /** The scalar operation `op (acc, x)`. */
  function Step(k: Reduction, acc: real, x: real): real
  {
    match k
    case AddTerm(f) => acc + f(x)
    case MaxAbs(absAcc) => Max(Start(absAcc, acc), Abs(x))
  }

  /** `reduceFallback`: fold the samples into `init` from first to last. */
  function Fold(k: Reduction, init: real, xs: seq<real>): real
    decreases |xs|
  {
    if xs == [] then init else Step(k, Fold(k, init, xs[..|xs| - 1]), xs[|xs| - 1])
  }

  /** The sum of the samples (`xsimd::reduce_add` over the lanes). */
  function Sum(xs: seq<real>): real
    decreases |xs|
  {
    if xs == [] then 0.0 else Sum(xs[..|xs| - 1]) + xs[|xs| - 1]
  }

  /** The sum of `f` over the samples. */
  function Total(f: real -> real, xs: seq<real>): real
    decreases |xs|
  {
    if xs == [] then 0.0 else Total(f, xs[..|xs| - 1]) + f(xs[|xs| - 1])
  }

  /** The largest sample (`xsimd::reduce_max` over the lanes). */
  function MaxOf(xs: seq<real>): real
    requires xs != []
    decreases |xs|
  {
    if |xs| == 1 then xs[0] else Max(MaxOf(xs[..|xs| - 1]), xs[|xs| - 1])
  }

  /** The largest magnitude among the samples. */
  function MaxAbsOf(xs: seq<real>): real
    requires xs != []
    decreases |xs|
  {
    if |xs| == 1 then Abs(xs[0]) else Max(MaxAbsOf(xs[..|xs| - 1]), Abs(xs[|xs| - 1]))
  }

  /** `vecReduceOp`: how the lanes are combined at the end of the vector path. */
  function Horizontal(k: Reduction, lanes: seq<real>): real
    requires lanes != []
  {
    match k
    case AddTerm(_) => Sum(lanes)
    case MaxAbs(_) => MaxOf(lanes)
  }

  /** `vecOp (resultVec, batch)`: the scalar operation lane by lane. */
  function LaneStep(k: Reduction, lanes: seq<real>, batch: seq<real>): (r: seq<real>)
    requires |lanes| == |batch|
    ensures |r| == |lanes|
    ensures forall i :: 0 <= i < |r| ==> r[i] == Step(k, lanes[i], batch[i])
  {
    seq(|lanes|, i requires 0 <= i < |lanes| => Step(k, lanes[i], batch[i]))
  }

  /** The first batch of accumulators: `init` in lane 0, zero in the others. */
  function Seed(init: real, width: nat): (r: seq<real>)
    requires width >= 1
    ensures |r| == width && r[0] == init
    ensures forall i :: 1 <= i < width ==> r[i] == 0.0
  {
    [init] + seq(width - 1, _ => 0.0)
  }

  predicate NonNegative(xs: seq<real>)
  {
    forall i :: 0 <= i < |xs| ==> xs[i] >= 0.0
  }

  // ---------------------------------------------------------------------------
  // Facts about the scalar fold

  /** Folding a concatenation folds the second part into the result of the first. */
  lemma {:induction false} FoldAppend(k: Reduction, init: real, xs: seq<real>, ys: seq<real>)
    ensures Fold(k, init, xs + ys) == Fold(k, Fold(k, init, xs), ys)
    decreases |ys|
  {
    if ys != [] {
      var zs := xs + ys;
      assert zs[..|zs| - 1] == xs + ys[..|ys| - 1];
      assert zs[|zs| - 1] == ys[|ys| - 1];
      FoldAppend(k, init, xs, ys[..|ys| - 1]);
    } else {
      assert xs + ys == xs;
    }
  }

  /** A running sum of a term adds the term's total to the initial value. */
  lemma {:induction false} FoldAddTerm(f: real -> real, init: real, xs: seq<real>)
    ensures Fold(AddTerm(f), init, xs) == init + Total(f, xs)
    decreases |xs|
  {
    if xs != [] {
      FoldAddTerm(f, init, xs[..|xs| - 1]);
    }
  }

  /**
   * A running maximum of magnitudes over at least one sample is the larger of the
   * initial value (as the step sees it) and the largest magnitude, and is never
   * negative.
   */
  lemma {:induction false} FoldMaxAbs(absAcc: bool, init: real, xs: seq<real>)
    requires xs != []
    ensures Fold(MaxAbs(absAcc), init, xs) == Max(Start(absAcc, init), MaxAbsOf(xs))
    ensures Fold(MaxAbs(absAcc), init, xs) >= 0.0
    decreases |xs|
  {
    var k := MaxAbs(absAcc);
    if |xs| == 1 {
      assert xs[..0] == [];
    } else {
      var front := xs[..|xs| - 1];
      FoldMaxAbs(absAcc, init, front);
      assert Start(absAcc, Fold(k, init, front)) == Fold(k, init, front);
    }
  }

  /** The sum of the seed batch is `init`. */
  lemma {:induction false} SumSeed(init: real, width: nat)
    requires width >= 1
    ensures Sum(Seed(init, width)) == init
    decreases width
  {
    var s := Seed(init, width);
    if width == 1 {
      assert s[..0] == [];
    } else {
      assert s[..width - 1] == Seed(init, width - 1);
      SumSeed(init, width - 1);
    }
  }

  // ---------------------------------------------------------------------------
  // Lanes against the scalar fold

  /** One lane-wise step of a running sum adds the batch's total to the lanes' sum. */
  lemma {:induction false} SumLaneStep(f: real -> real, lanes: seq<real>, batch: seq<real>)
    requires |lanes| == |batch|
    ensures Sum(LaneStep(AddTerm(f), lanes, batch)) == Sum(lanes) + Total(f, batch)
    decreases |lanes|
  {
    if lanes != [] {
      var m := |lanes| - 1;
      var r := LaneStep(AddTerm(f), lanes, batch);
      assert r[..m] == LaneStep(AddTerm(f), lanes[..m], batch[..m]);
      SumLaneStep(f, lanes[..m], batch[..m]);
    }
  }

  /**
   * One lane-wise step of a running maximum of magnitudes over non-negative lanes
   * raises their maximum to the batch's largest magnitude, and keeps them
   * non-negative.
   */
  lemma {:induction false} MaxLaneStep(absAcc: bool, lanes: seq<real>, batch: seq<real>)
    requires |lanes| == |batch| && lanes != [] && NonNegative(lanes)
    ensures NonNegative(LaneStep(MaxAbs(absAcc), lanes, batch))
    ensures MaxOf(LaneStep(MaxAbs(absAcc), lanes, batch)) == Max(MaxOf(lanes), MaxAbsOf(batch))
    decreases |lanes|
  {
    var r := LaneStep(MaxAbs(absAcc), lanes, batch);
    if |lanes| > 1 {
      var m := |lanes| - 1;
      assert r[..m] == LaneStep(MaxAbs(absAcc), lanes[..m], batch[..m]);
      MaxLaneStep(absAcc, lanes[..m], batch[..m]);
    }
  }

  /**
   * The first lane-wise step of a running maximum of magnitudes, from the seed
   * batch, leaves lanes whose maximum is the scalar fold of that batch.
   */
  lemma {:induction false} MaxSeedStep(absAcc: bool, init: real, batch: seq<real>)
    requires batch != []
    ensures NonNegative(LaneStep(MaxAbs(absAcc), Seed(init, |batch|), batch))
    ensures MaxOf(LaneStep(MaxAbs(absAcc), Seed(init, |batch|), batch)) == Max(Start(absAcc, init), MaxAbsOf(batch))
    decreases |batch|
  {
    var w := |batch|;
    var r := LaneStep(MaxAbs(absAcc), Seed(init, w), batch);
    if w > 1 {
      assert Seed(init, w)[..w - 1] == Seed(init, w - 1);
      assert r[..w - 1] == LaneStep(MaxAbs(absAcc), Seed(init, w - 1), batch[..w - 1]);
      MaxSeedStep(absAcc, init, batch[..w - 1]);
      assert r[w - 1] == Abs(batch[w - 1]) by { assert Start(absAcc, 0.0) == 0.0; }
      MaxRegroup(Start(absAcc, init), MaxAbsOf(batch[..w - 1]), Abs(batch[w - 1]));
    }
  }

  /** `Max` is associative. */
  lemma MaxRegroup(a: real, b: real, c: real)
    ensures Max(Max(a, b), c) == Max(a, Max(b, c))
  {
  }

  /**
   * The lanes stand for the scalar fold of `prefix` from `init`: their sum is the
   * fold for a running sum; for a running maximum they are still the seed before
   * any batch, and afterwards non-negative with the fold as their maximum.
   */
  ghost predicate Represents(k: Reduction, lanes: seq<real>, init: real, prefix: seq<real>)
  {
    && lanes != []
    && match k
       case AddTerm(_) => Sum(lanes) == Fold(k, init, prefix)
       case MaxAbs(_) =>
         if prefix == [] then lanes == Seed(init, |lanes|)
         else NonNegative(lanes) && MaxOf(lanes) == Fold(k, init, prefix)
  }

  /** The seed batch stands for the empty prefix. */
  lemma RepresentsSeed(k: Reduction, init: real, width: nat)
    requires width >= 1
    ensures Represents(k, Seed(init, width), init, [])
  {
    if k.AddTerm? {
      SumSeed(init, width);
    }
  }

  /** A running sum: a lane-wise step adds the batch to the summed prefix. */
  lemma SumStep(f: real -> real, lanes: seq<real>, init: real, prefix: seq<real>, batch: seq<real>)
    requires |batch| == |lanes| && Sum(lanes) == Fold(AddTerm(f), init, prefix)
    ensures Sum(LaneStep(AddTerm(f), lanes, batch)) == Fold(AddTerm(f), init, prefix + batch)
  {
    FoldAppend(AddTerm(f), init, prefix, batch);
    SumLaneStep(f, lanes, batch);
    FoldAddTerm(f, Fold(AddTerm(f), init, prefix), batch);
  }

  /** A running maximum of magnitudes: a lane-wise step after the first batch. */
  lemma MaxStep(absAcc: bool, lanes: seq<real>, init: real, prefix: seq<real>, batch: seq<real>)
    requires |batch| == |lanes| && lanes != [] && prefix != []
    requires NonNegative(lanes) && MaxOf(lanes) == Fold(MaxAbs(absAcc), init, prefix)
    ensures NonNegative(LaneStep(MaxAbs(absAcc), lanes, batch))
    ensures MaxOf(LaneStep(MaxAbs(absAcc), lanes, batch)) == Fold(MaxAbs(absAcc), init, prefix + batch)
  {
    var k := MaxAbs(absAcc);
    FoldAppend(k, init, prefix, batch);
    MaxLaneStep(absAcc, lanes, batch);
    FoldMaxAbs(absAcc, init, prefix);
    FoldMaxAbs(absAcc, Fold(k, init, prefix), batch);
  }

  /** A running maximum of magnitudes: the first lane-wise step, from the seed batch. */
  lemma MaxFirstStep(absAcc: bool, init: real, batch: seq<real>)
    requires batch != []
    ensures NonNegative(LaneStep(MaxAbs(absAcc), Seed(init, |batch|), batch))
    ensures MaxOf(LaneStep(MaxAbs(absAcc), Seed(init, |batch|), batch)) == Fold(MaxAbs(absAcc), init, batch)
  {
    MaxSeedStep(absAcc, init, batch);
    FoldMaxAbs(absAcc, init, batch);
  }

  /** A lane-wise step with the next batch extends the represented prefix by that batch. */
  lemma RepresentsStep(k: Reduction, lanes: seq<real>, init: real, prefix: seq<real>, batch: seq<real>)
    requires Represents(k, lanes, init, prefix) && |batch| == |lanes|
    ensures Represents(k, LaneStep(k, lanes, batch), init, prefix + batch)
  {
    match k
    case AddTerm(f) =>
      SumStep(f, lanes, init, prefix, batch);
    case MaxAbs(absAcc) =>
      if prefix == [] {
        assert prefix + batch == batch;
        MaxFirstStep(absAcc, init, batch);
      } else {
        MaxStep(absAcc, lanes, init, prefix, batch);
      }
  }

  /** Once at least one batch has been read, combining the lanes gives the scalar fold. */
  lemma RepresentsResult(k: Reduction, lanes: seq<real>, init: real, prefix: seq<real>)
    requires Represents(k, lanes, init, prefix) && prefix != []
    ensures Horizontal(k, lanes) == Fold(k, init, prefix)
  {
  }

  // ---------------------------------------------------------------------------
  // Two-source reductions: a running sum of a term of two samples

  /** `reduceFallback` over two sources with `prev + f (a, b)`. */
  function Fold2(f: (real, real) -> real, init: real, xs: seq<real>, ys: seq<real>): real
    requires |xs| == |ys|
    decreases |xs|
  {
    if xs == [] then init
    else Fold2(f, init, xs[..|xs| - 1], ys[..|ys| - 1]) + f(xs[|xs| - 1], ys[|ys| - 1])
  }

  /** The sum of `f` over pairs of samples. */
  function Total2(f: (real, real) -> real, xs: seq<real>, ys: seq<real>): real
    requires |xs| == |ys|
    decreases |xs|
  {
    if xs == [] then 0.0 else Total2(f, xs[..|xs| - 1], ys[..|ys| - 1]) + f(xs[|xs| - 1], ys[|ys| - 1])
  }

  /** `vecOp (resultVec, batch1, batch2)`: `prev + f (a, b)` lane by lane. */
  function LaneStep2(f: (real, real) -> real, lanes: seq<real>, b1: seq<real>, b2: seq<real>): (r: seq<real>)
    requires |lanes| == |b1| == |b2|
    ensures |r| == |lanes|
    ensures forall i :: 0 <= i < |r| ==> r[i] == lanes[i] + f(b1[i], b2[i])
  {
    seq(|lanes|, i requires 0 <= i < |lanes| => lanes[i] + f(b1[i], b2[i]))
  }

  /** A running sum adds the total to the initial value. */
  lemma {:induction false} Fold2Total(f: (real, real) -> real, init: real, xs: seq<real>, ys: seq<real>)
    requires |xs| == |ys|
    ensures Fold2(f, init, xs, ys) == init + Total2(f, xs, ys)
    decreases |xs|
  {
    if xs != [] {
      Fold2Total(f, init, xs[..|xs| - 1], ys[..|ys| - 1]);
    }
  }

  /** Folding concatenations folds the second parts into the result of the first. */
  lemma {:induction false} Fold2Append(f: (real, real) -> real, init: real, xs: seq<real>, ys: seq<real>,
                                       xs': seq<real>, ys': seq<real>)
    requires |xs| == |ys| && |xs'| == |ys'|
    ensures Fold2(f, init, xs + xs', ys + ys') == Fold2(f, Fold2(f, init, xs, ys), xs', ys')
    decreases |xs'|
  {
    if xs' != [] {
      var a, b := xs + xs', ys + ys';
      assert a[..|a| - 1] == xs + xs'[..|xs'| - 1];
      assert b[..|b| - 1] == ys + ys'[..|ys'| - 1];
      assert a[|a| - 1] == xs'[|xs'| - 1] && b[|b| - 1] == ys'[|ys'| - 1];
      Fold2Append(f, init, xs, ys, xs'[..|xs'| - 1], ys'[..|ys'| - 1]);
    } else {
      assert xs + xs' == xs && ys + ys' == ys;
    }
  }

  /** One lane-wise step adds the batch's total to the lanes' sum. */
  lemma {:induction false} SumLaneStep2(f: (real, real) -> real, lanes: seq<real>, b1: seq<real>, b2: seq<real>)
    requires |lanes| == |b1| == |b2|
    ensures Sum(LaneStep2(f, lanes, b1, b2)) == Sum(lanes) + Total2(f, b1, b2)
    decreases |lanes|
  {
    if lanes != [] {
      var m := |lanes| - 1;
      assert LaneStep2(f, lanes, b1, b2)[..m] == LaneStep2(f, lanes[..m], b1[..m], b2[..m]);
      SumLaneStep2(f, lanes[..m], b1[..m], b2[..m]);
    }
  }

  /** A lane-wise step with the next batches keeps the lanes' sum equal to the fold. */
  lemma Represents2Step(f: (real, real) -> real, lanes: seq<real>, init: real,
                        xs: seq<real>, ys: seq<real>, b1: seq<real>, b2: seq<real>)
    requires |xs| == |ys| && |lanes| == |b1| == |b2|
    requires Sum(lanes) == Fold2(f, init, xs, ys)
    ensures Sum(LaneStep2(f, lanes, b1, b2)) == Fold2(f, init, xs + b1, ys + b2)
  {
    SumLaneStep2(f, lanes, b1, b2);
    Fold2Append(f, init, xs, ys, b1, b2);
    Fold2Total(f, Fold2(f, init, xs, ys), b1, b2);
  }
}
