/**
 * The public operations of `chowdsp::FloatVectorOperations` for one SIMD
 * architecture, each built on one kernel of `fvo_detail`.
 *
 * Every operation is stated against a reference definition on sequences, and
 * the lemmas here relate those definitions to the folds the kernels compute.
 */
module VectorOps {
  import opened ReductionSpec
  import opened FvoDetail

  // ---------------------------------------------------------------------------
  // Scalar operations

  /**
   * `num / den`. Division by zero yields 0 here; IEEE arithmetic yields an
   * infinity or NaN, which real numbers cannot represent.
   */
  function Quotient(num: real, den: real): (r: real)
    ensures den != 0.0 ==> r * den == num
  {
    if den == 0.0 then 0.0 else num / den
  }

  function Identity(x: real): real
  {
    x
  }

  function Square(x: real): real
  {
    x * x
  }

  function Product(a: real, b: real): real
  {
    a * b
  }

  /** `x` to the power `e`: `e` factors of `x`, and 1 for `e == 0`. */
  function Pow(x: real, e: nat): real
    decreases e
  {
    if e == 0 then 1.0 else x * Pow(x, e - 1)
  }

  /** Powers add their exponents. */
  lemma {:induction false} PowAdd(x: real, a: nat, b: nat)
    ensures Pow(x, a + b) == Pow(x, a) * Pow(x, b)
    decreases a
  {
    if a > 0 {
      PowAdd(x, a - 1, b);
      assert Pow(x, a + b) == x * Pow(x, a - 1 + b);
    }
  }

  /** The first powers are the products `fill`, `copy` and `multiply (src, src)` compute. */
  lemma PowSmall(x: real)
    ensures Pow(x, 0) == 1.0 && Pow(x, 1) == x && Pow(x, 2) == x * x
  {
  }

  // ---------------------------------------------------------------------------
  // Reference definitions

  /** The inner product, summed from the first pair. */
  function Dot(xs: seq<real>, ys: seq<real>): real
    requires |xs| == |ys|
    decreases |xs|
  {
    if xs == [] then 0.0 else xs[0] * ys[0] + Dot(xs[1..], ys[1..])
  }

  /** Appending one pair adds its product. */
  lemma {:induction false} DotSnoc(xs: seq<real>, ys: seq<real>, x: real, y: real)
    requires |xs| == |ys|
    ensures Dot(xs + [x], ys + [y]) == Dot(xs, ys) + x * y
    decreases |xs|
  {
    if xs == [] {
      assert (xs + [x])[1..] == [] && (ys + [y])[1..] == [];
    } else {
      assert (xs + [x])[1..] == xs[1..] + [x];
      assert (ys + [y])[1..] == ys[1..] + [y];
      DotSnoc(xs[1..], ys[1..], x, y);
    }
  }

  /** The scalar fold of `prev + a * b` from zero is the inner product. */
  lemma {:induction false} FoldProductIsDot(xs: seq<real>, ys: seq<real>)
    requires |xs| == |ys|
    ensures Fold2(Product, 0.0, xs, ys) == Dot(xs, ys)
    decreases |xs|
  {
    if xs != [] {
      var m := |xs| - 1;
      FoldProductIsDot(xs[..m], ys[..m]);
      DotSnoc(xs[..m], ys[..m], xs[m], ys[m]);
      assert xs[..m] + [xs[m]] == xs && ys[..m] + [ys[m]] == ys;
    }
  }

  /** The inner product does not depend on the order of its operands. */
  lemma {:induction false} DotSymmetric(xs: seq<real>, ys: seq<real>)
    requires |xs| == |ys|
    ensures Dot(xs, ys) == Dot(ys, xs)
    decreases |xs|
  {
    if xs != [] {
      DotSymmetric(xs[1..], ys[1..]);
    }
  }

  /** The scalar fold of `prev + next` from zero is the sum. */
  lemma {:induction false} FoldIdentityIsSum(xs: seq<real>)
    ensures Fold(AddTerm(Identity), 0.0, xs) == Sum(xs)
    decreases |xs|
  {
    if xs != [] {
      FoldIdentityIsSum(xs[..|xs| - 1]);
    }
  }

  /** Sums add over concatenation. */
  lemma {:induction false} SumAppend(xs: seq<real>, ys: seq<real>)
    ensures Sum(xs + ys) == Sum(xs) + Sum(ys)
    decreases |ys|
  {
    if ys == [] {
      assert xs + ys == xs;
    } else {
      var zs := xs + ys;
      assert zs[..|zs| - 1] == xs + ys[..|ys| - 1];
      SumAppend(xs, ys[..|ys| - 1]);
    }
  }

  /** A product of two positive numbers is positive. */
  lemma MulPositive(a: real, b: real)
    requires a > 0.0 && b > 0.0
    ensures a * b > 0.0
  {
  }

  /** A square is never negative. */
  lemma SquareNonNegative(x: real)
    ensures Square(x) >= 0.0
  {
    if x < 0.0 {
      assert (-x) * (-x) == Square(x);
      MulPositive(-x, -x);
    } else if x > 0.0 {
      MulPositive(x, x);
    }
  }

  /** A sum of squares is never negative, and is zero when every sample is. */
  lemma {:induction false} SumOfSquaresNonNegative(xs: seq<real>)
    ensures Total(Square, xs) >= 0.0
    ensures (forall i :: 0 <= i < |xs| ==> xs[i] == 0.0) ==> Total(Square, xs) == 0.0
    decreases |xs|
  {
    if xs != [] {
      var m := |xs| - 1;
      SumOfSquaresNonNegative(xs[..m]);
      SquareNonNegative(xs[m]);
      assert forall i :: 0 <= i < m ==> xs[..m][i] == xs[i];
    }
  }

  /** The sum of squares is the inner product of the samples with themselves. */
  lemma {:induction false} SumOfSquaresIsSelfDot(xs: seq<real>)
    ensures Total(Square, xs) == Dot(xs, xs)
    decreases |xs|
  {
    if xs != [] {
      var m := |xs| - 1;
      SumOfSquaresIsSelfDot(xs[..m]);
      DotSnoc(xs[..m], xs[..m], xs[m], xs[m]);
      assert xs[..m] + [xs[m]] == xs;
    }
  }

  /** No magnitude among the samples exceeds their largest one, and none is negative. */
  lemma {:induction false} MaxAbsOfBounds(xs: seq<real>)
    requires xs != []
    ensures MaxAbsOf(xs) >= 0.0
    ensures forall i :: 0 <= i < |xs| ==> Abs(xs[i]) <= MaxAbsOf(xs)
    decreases |xs|
  {
    if |xs| > 1 {
      var m := |xs| - 1;
      MaxAbsOfBounds(xs[..m]);
      assert forall i :: 0 <= i < m ==> xs[..m][i] == xs[i];
    }
  }

  /** The largest magnitude is the magnitude of some sample. */
  lemma {:induction false} MaxAbsOfAttained(xs: seq<real>) returns (i: nat)
    requires xs != []
    ensures i < |xs| && Abs(xs[i]) == MaxAbsOf(xs)
    decreases |xs|
  {
    if |xs| == 1 {
      i := 0;
    } else {
      var m := |xs| - 1;
      var j := MaxAbsOfAttained(xs[..m]);
      i := if MaxAbsOf(xs[..m]) < Abs(xs[m]) then m else j;
    }
  }

  /** The largest magnitude does not depend on the order of the samples. */
  lemma MaxAbsOfPermutation(xs: seq<real>, ys: seq<real>)
    requires xs != [] && multiset(xs) == multiset(ys)
    ensures ys != [] && MaxAbsOf(xs) == MaxAbsOf(ys)
  {
    assert |ys| == |multiset(ys)| == |multiset(xs)| == |xs|;
    MaxAbsOfBounds(xs);
    MaxAbsOfBounds(ys);
    var i := MaxAbsOfAttained(xs);
    var j := MaxAbsOfAttained(ys);
    assert xs[i] in multiset(ys);
    assert ys[j] in multiset(xs);
  }

  /** The number of samples the test holds for, counted from the first. */
  function CountOf(test: real -> bool, xs: seq<real>): nat
    decreases |xs|
  {
    if xs == [] then 0 else CountOf(test, xs[..|xs| - 1]) + (if test(xs[|xs| - 1]) then 1 else 0)
  }

  /**
   * The count lies between 0 and the number of samples; it is the number of
   * samples exactly when the test holds for all, and 0 exactly when it holds for
   * none.
   */
  lemma {:induction false} CountOfBounds(test: real -> bool, xs: seq<real>)
    ensures CountOf(test, xs) <= |xs|
    ensures CountOf(test, xs) == |xs| <==> forall i :: 0 <= i < |xs| ==> test(xs[i])
    ensures CountOf(test, xs) == 0 <==> forall i :: 0 <= i < |xs| ==> !test(xs[i])
    decreases |xs|
  {
    if xs != [] {
      var m := |xs| - 1;
      CountOfBounds(test, xs[..m]);
      assert forall i :: 0 <= i < m ==> xs[..m][i] == xs[i];
    }
  }

  // ---------------------------------------------------------------------------
  // The operations for one architecture (`template <typename Arch>`)

  /** `divide (dest, dividend, divisor, n)`: `binaryOp` with `num / den`. */
  method Divide(arch: Arch, t: SampleType, dest: Ptr, dividend: Ptr, divisor: Ptr, n: nat)
    requires Fits(dest, n, t) && Fits(dividend, n, t) && Fits(divisor, n, t)
    requires NoPartialOverlap(dest, dividend) && NoPartialOverlap(dest, divisor)
    modifies dest.arr
    ensures forall j {:trigger dest.arr[j]} :: 0 <= j < dest.arr.Length ==>
      dest.arr[j] == if dest.off <= j < dest.off + n
        then Quotient(old(dividend.arr[j - dest.off + dividend.off]), old(divisor.arr[j - dest.off + divisor.off]))
        else old(dest.arr[j])
  {
    BinaryOp(arch, t, dest, dividend, divisor, n, Quotient);
  }

  /** `divide (dest, dividend, divisor, n)` with a scalar dividend: `unaryOp` with `dividend / x`. */
  method DivideScalar(arch: Arch, t: SampleType, dest: Ptr, dividend: real, divisor: Ptr, n: nat)
    requires Fits(dest, n, t) && Fits(divisor, n, t) && NoPartialOverlap(dest, divisor)
    modifies dest.arr
    ensures forall j :: 0 <= j < dest.arr.Length ==>
      dest.arr[j] == if dest.off <= j < dest.off + n
        then Quotient(dividend, old(divisor.arr[j - dest.off + divisor.off]))
        else old(dest.arr[j])
  {
    UnaryOp(arch, t, dest, divisor, n, x => Quotient(dividend, x));
  }

  /** `accumulate`: the one-source `reduce` of `prev + next` from 0 is the sum. */
  method Accumulate(arch: Arch, t: SampleType, src: Ptr, n: nat) returns (r: real)
    requires Fits(src, n, t)
    ensures r == Sum(Values(src, n))
  {
    r := Reduce(arch, t, AddTerm(Identity), src, n, 0.0);
    FoldIdentityIsSum(Values(src, n));
  }

  /**
   * `innerProduct`: the two-source `reduce` of `prev + a * b` from 0 is the inner
   * product. It runs the kernel as written, which drops `init` on the vector path;
   * with `init` 0 the two paths agree, so the result is right.
   */
  method InnerProduct(arch: Arch, t: SampleType, src1: Ptr, src2: Ptr, n: nat) returns (r: real)
    requires Fits(src1, n, t) && Fits(src2, n, t)
    ensures r == Dot(Values(src1, n), Values(src2, n))
  {
    r := Reduce2AsWritten(arch, t, Product, src1, src2, n, 0.0);
    FoldProductIsDot(Values(src1, n), Values(src2, n));
  }

  /**
   * `findAbsoluteMaximum`: the one-source `reduce` of `jmax (|prev|, |next|)`
   * (`float`) or `jmax (prev, |next|)` (`double`) from 0, combined with
   * `reduce_max`. Either way it is the largest magnitude, and 0 for no samples.
   */
  method FindAbsoluteMaximum(arch: Arch, t: SampleType, src: Ptr, n: nat) returns (r: real)
    requires Fits(src, n, t)
    ensures n == 0 ==> r == 0.0
    ensures n > 0 ==> r == MaxAbsOf(Values(src, n))
    ensures r >= 0.0
  {
    r := Reduce(arch, t, MaxAbs(t == Float), src, n, 0.0);
    if n > 0 {
      FoldMaxAbs(t == Float, 0.0, Values(src, n));
      MaxAbsOfBounds(Values(src, n));
    }
  }

  /**
   * `integerPowerT`: every sample raised to a non-negative exponent. Exponent 0
   * is `fill` with 1, exponent 1 is `copy`, exponent 2 is `multiply (src, src)`,
   * and every larger exponent is `unaryOp` with `x^e`.
   */
  method IntegerPower(arch: Arch, t: SampleType, dest: Ptr, src: Ptr, exponent: int, n: nat)
    requires exponent >= 0
    requires Fits(dest, n, t) && Fits(src, n, t) && NoPartialOverlap(dest, src)
    modifies dest.arr
    ensures forall j :: 0 <= j < dest.arr.Length ==>
      dest.arr[j] == if dest.off <= j < dest.off + n
        then Pow(old(src.arr[j - dest.off + src.off]), exponent)
        else old(dest.arr[j])
  {
    var e: nat := exponent;
    if e == 0 {
      UnaryOpFallback(dest, src, n, _ => 1.0);
    } else if e == 1 {
      UnaryOpFallback(dest, src, n, Identity);
    } else if e == 2 {
      BinaryOpFallback(dest, src, src, n, Product);
    } else {
      UnaryOp(arch, t, dest, src, n, x => Pow(x, e));
    }
  }

  /**
   * The sum of squares `computeRMS` takes the root of: the one-source `reduce` of
   * `prev + next * next` from 0.
   */
  method SumOfSquares(arch: Arch, t: SampleType, src: Ptr, n: nat) returns (r: real)
    requires Fits(src, n, t)
    ensures r == Total(Square, Values(src, n)) && r >= 0.0
  {
    r := Reduce(arch, t, AddTerm(Square), src, n, 0.0);
    FoldAddTerm(Square, 0.0, Values(src, n));
    SumOfSquaresNonNegative(Values(src, n));
  }

  /**
   * `countNaNs` and `countInfs`: a scalar loop counting the samples the test
   * (`std::isnan` or `std::isinf`) holds for.
   */
  method CountWhere(src: Ptr, n: nat, test: real -> bool) returns (count: nat)
    requires src.off + n <= src.arr.Length
    ensures count == CountOf(test, Values(src, n)) && count <= n
  {
    count := 0;
    for i := 0 to n
      invariant count == CountOf(test, Values(src, i))
    {
      assert Values(src, i + 1)[..i] == Values(src, i);
      count := count + if test(src.arr[src.off + i]) then 1 else 0;
    }
    CountOfBounds(test, Values(src, n));
  }
}
