/**
 * The process-wide choice between the base and the advanced SIMD architecture
 * that the `<void>` entry points of `chowdsp::FloatVectorOperations` make.
 */
module SimdDispatch {
  import opened ReductionSpec
  import opened FvoDetail
  import VectorOps

  /** The platforms the library targets: Intel, with or without AVX, and ARM. */
  datatype Platform = Intel(withAvx: bool) | Arm

  /** `baseSIMDArch`. */
  function BaseArch(p: Platform): Arch
  {
    match p
    case Intel(_) => Sse2
    case Arm => Neon64
  }

  /** `advancedSIMDArch`: AVX where available, otherwise the base architecture. */
  function AdvancedArch(p: Platform): (r: Arch)
    ensures RegisterSize(r) >= RegisterSize(BaseArch(p))
    ensures r != BaseArch(p) <==> p == Intel(true)
  {
    match p
    case Intel(withAvx) => if withAvx then Avx else Sse2
    case Arm => Neon64
  }

  /**
   * `FloatVectorOperations` with its static `canUseAdvancedSIMDArch` flag, which
   * starts out false. Each `<void>` entry point runs the advanced architecture's
   * version when the flag is set and the base one otherwise.
   */
  class FloatVectorOperations {
    var canUseAdvancedSIMDArch: bool
    const platform: Platform

    constructor(platform: Platform)
      ensures this.platform == platform && !canUseAdvancedSIMDArch
    {
      this.platform := platform;
      canUseAdvancedSIMDArch := false;
    }

    /** The architecture the `<void>` entry points run. */
    function SelectedArch(): Arch
      reads this
    {
      if canUseAdvancedSIMDArch then AdvancedArch(platform) else BaseArch(platform)
    }

    /** `isUsingAdvancedSIMDArch`: whether the entry points run the advanced architecture. */
    function IsUsingAdvancedSIMDArch(): (r: bool)
      reads this
      ensures r ==> SelectedArch() == AdvancedArch(platform)
      ensures !r ==> SelectedArch() == BaseArch(platform)
    {
      canUseAdvancedSIMDArch
    }

    /**
     * After `setUsingAdvancedSIMDArch (canUse)`, `isUsingAdvancedSIMDArch` returns
     * `canUse`, and the entry points run the advanced architecture exactly when
     * `canUse` holds or the two architectures coincide.
     */
    method SetUsingAdvancedSIMDArch(canUse: bool)
      modifies this
      ensures IsUsingAdvancedSIMDArch() == canUse
      ensures SelectedArch() == AdvancedArch(platform) <==> canUse || AdvancedArch(platform) == BaseArch(platform)
    {
      canUseAdvancedSIMDArch := canUse;
    }

    method Divide(t: SampleType, dest: Ptr, dividend: Ptr, divisor: Ptr, n: nat)
      requires Fits(dest, n, t) && Fits(dividend, n, t) && Fits(divisor, n, t)
      requires NoPartialOverlap(dest, dividend) && NoPartialOverlap(dest, divisor)
      modifies dest.arr
      ensures forall j {:trigger dest.arr[j]} :: 0 <= j < dest.arr.Length ==>
        dest.arr[j] == if dest.off <= j < dest.off + n
          then VectorOps.Quotient(old(dividend.arr[j - dest.off + dividend.off]), old(divisor.arr[j - dest.off + divisor.off]))
          else old(dest.arr[j])
    {
      VectorOps.Divide(SelectedArch(), t, dest, dividend, divisor, n);
    }

    method DivideScalar(t: SampleType, dest: Ptr, dividend: real, divisor: Ptr, n: nat)
      requires Fits(dest, n, t) && Fits(divisor, n, t) && NoPartialOverlap(dest, divisor)
      modifies dest.arr
      ensures forall j :: 0 <= j < dest.arr.Length ==>
        dest.arr[j] == if dest.off <= j < dest.off + n
          then VectorOps.Quotient(dividend, old(divisor.arr[j - dest.off + divisor.off]))
          else old(dest.arr[j])
    {
      VectorOps.DivideScalar(SelectedArch(), t, dest, dividend, divisor, n);
    }

    method Accumulate(t: SampleType, src: Ptr, n: nat) returns (r: real)
      requires Fits(src, n, t)
      ensures r == Sum(Values(src, n))
    {
      r := VectorOps.Accumulate(SelectedArch(), t, src, n);
    }

    method InnerProduct(t: SampleType, src1: Ptr, src2: Ptr, n: nat) returns (r: real)
      requires Fits(src1, n, t) && Fits(src2, n, t)
      ensures r == VectorOps.Dot(Values(src1, n), Values(src2, n))
    {
      r := VectorOps.InnerProduct(SelectedArch(), t, src1, src2, n);
    }

    method FindAbsoluteMaximum(t: SampleType, src: Ptr, n: nat) returns (r: real)
      requires Fits(src, n, t)
      ensures n == 0 ==> r == 0.0
      ensures n > 0 ==> r == MaxAbsOf(Values(src, n))
    {
      r := VectorOps.FindAbsoluteMaximum(SelectedArch(), t, src, n);
    }

    method IntegerPower(t: SampleType, dest: Ptr, src: Ptr, exponent: int, n: nat)
      requires exponent >= 0
      requires Fits(dest, n, t) && Fits(src, n, t) && NoPartialOverlap(dest, src)
      modifies dest.arr
      ensures forall j :: 0 <= j < dest.arr.Length ==>
        dest.arr[j] == if dest.off <= j < dest.off + n
          then VectorOps.Pow(old(src.arr[j - dest.off + src.off]), exponent)
          else old(dest.arr[j])
    {
      VectorOps.IntegerPower(SelectedArch(), t, dest, src, exponent, n);
    }

    method SumOfSquares(t: SampleType, src: Ptr, n: nat) returns (r: real)
      requires Fits(src, n, t)
      ensures r == Total(VectorOps.Square, Values(src, n)) && r >= 0.0
    {
      r := VectorOps.SumOfSquares(SelectedArch(), t, src, n);
    }
  }
}
