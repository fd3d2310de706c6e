# chowdsp DSP core in Dafny

A model of four sequential pieces of the chowdsp DSP layer, with samples taken
as mathematical reals:

- **Vectorised kernels** (`fvo_detail`, module `FvoDetail`).
  - Each of `unaryOp`, `binaryOp` and the single-source `reduce` has two paths: a scalar
    fallback when `n / vecSize < 2`; otherwise `n / vecSize` lane chunks (a chunk is a
    `seq` of `vecSize` lanes) followed by a scalar tail of `n % vecSize` elements.
  - The single-source `reduce` also peels leading elements up to the next aligned
    address and recurses.
  - Memory is an `array<real>` seen through a `Ptr`. A `Ptr` is an array, an element
    offset and a byte address, so alignment tests run on real addresses.
  - Each kernel is proved equal to the plain element-wise map or left fold, on every
    path and for every aligned/unaligned load and store choice.
- **Public vector operations** (module `VectorOps`).
  - `divide` (array and scalar dividend), `accumulate`, `innerProduct`,
    `findAbsoluteMaximum`, `integerPower`, the sum of squares inside `computeRMS`, and
    `countNaNs`/`countInfs`.
  - Module `SimdDispatch` holds the class that owns the process-wide
    `canUseAdvancedSIMDArch` flag and routes the `<void>` entry points to the base or
    advanced architecture.
- **`chowdsp::Buffer`** (module `Buffers`).
  - A class with per-channel arrays, channel pointers, an active region and
    `hasBeenCleared`.
  - Its invariant: when `hasBeenCleared` holds, every active sample is zero.
- **`ModalFilterBank`** (module `ModalBank`).
  - A class over an array of lane-packed resonator groups.
  - Covers mode-index bookkeeping, amplitude masking and normalisation, the frequency
    cut at `maxFreq`, padding lanes, `ceil(n / vecSize)` active groups, and the render
    loop. The render loop sums each active group's lane outputs into a mono render
    buffer.
  - The resonator's per-sample step is a parameter, since its code lives in a header
    this model does not include.
- **Alignment helpers** (module `Alignment`).
  - `isAligned`, `snapPointerToAlignment` and `getNextAlignedPtr` on natural-number
    addresses below 2^64.
  - Bitwise AND is defined bit by bit, and the masks are proved equal to
    modulo/round-up arithmetic.
- Module `ReductionSpec` holds the specification side of the reductions: left folds,
  lane-wise steps, horizontal reductions, and the lemmas showing that a lane vector
  represents a fold.

## Model

| member | source | states |
|---|---|---|
| Alignment.Log2 | modules/dsp/chowdsp_simd/SIMD/chowdsp_SIMDAlignmentHelpers.h:15-16 | a power-of-two alignment is 2 raised to the returned exponent |
| Alignment.BitAnd | modules/dsp/chowdsp_simd/SIMD/chowdsp_SIMDAlignmentHelpers.h:11 | the bitwise AND of two addresses is no larger than either operand |
| Alignment.LowBitsIsMod | modules/dsp/chowdsp_simd/SIMD/chowdsp_SIMDAlignmentHelpers.h:10-11 | the low k bits of x are x mod 2^k |
| Alignment.LowBitsOfSmall | modules/dsp/chowdsp_simd/SIMD/chowdsp_SIMDAlignmentHelpers.h:10-11 | a value below 2^k is its own low k bits |
| Alignment.LowMaskKeepsLowBits | modules/dsp/chowdsp_simd/SIMD/chowdsp_SIMDAlignmentHelpers.h:10-11 | AND with the mask 2^k - 1 keeps exactly the low k bits |
| Alignment.LowMaskIsMod | modules/dsp/chowdsp_simd/SIMD/chowdsp_SIMDAlignmentHelpers.h:10-11 | `x & (2^k - 1)` equals `x mod 2^k` |
| Alignment.HighMaskClearsLowBits | modules/dsp/chowdsp_simd/SIMD/chowdsp_SIMDAlignmentHelpers.h:21 | AND with the high mask `2^w - 2^k` (that is, `~(2^k - 1)` in w bits) clears exactly the low k bits |
| Alignment.HighMaskStep | modules/dsp/chowdsp_simd/SIMD/chowdsp_SIMDAlignmentHelpers.h:21 | the inductive step of the high-mask fact, one bit at a time |
| Alignment.IsAlignedIffMultiple | modules/dsp/chowdsp_simd/SIMD/chowdsp_SIMDAlignmentHelpers.h:6-12 | for a power-of-two register size, the bitmask test holds iff the address is a multiple of the register size |
| Alignment.SnapClosedForm | modules/dsp/chowdsp_simd/SIMD/chowdsp_SIMDAlignmentHelpers.h:18-22 | the snapped address is `(p + a - 1)` rounded down to a multiple of `a` |
| Alignment.SnapAsMask | modules/dsp/chowdsp_simd/SIMD/chowdsp_SIMDAlignmentHelpers.h:21 | the snap formula is `(p + a - 1) & ~(a - 1)`, with the complement taken in 64 bits |
| Alignment.HighMaskOfPowerOfTwo | modules/dsp/chowdsp_simd/SIMD/chowdsp_SIMDAlignmentHelpers.h:21 | `q & ~(a - 1)` is `q - q mod a` for a power-of-two `a` |
| Alignment.SnapRoundsUp | modules/dsp/chowdsp_simd/SIMD/chowdsp_SIMDAlignmentHelpers.h:14-22 | the snapped address is a multiple of `a`, at least `p`, and less than `p + a` |
| Alignment.SnapIsLeastMultiple | modules/dsp/chowdsp_simd/SIMD/chowdsp_SIMDAlignmentHelpers.h:14-22 | no multiple of `a` that is at least `p` lies below the snapped address |
| Alignment.SnapFixesMultiples | modules/dsp/chowdsp_simd/SIMD/chowdsp_SIMDAlignmentHelpers.h:19-22 | an address that is already a multiple of `a` is returned unchanged |
| Alignment.SnapIdempotent | modules/dsp/chowdsp_simd/SIMD/chowdsp_SIMDAlignmentHelpers.h:19-22 | snapping twice equals snapping once |
| Alignment.IsAligned | modules/dsp/chowdsp_simd/SIMD/chowdsp_SIMDAlignmentHelpers.h:6-12 | definition of `isAligned`: the address AND the register size minus one is zero; its meaning, "a multiple of the register size", is `Alignment.IsAlignedIffMultiple` |
| Alignment.SnapPointerToAlignment | modules/dsp/chowdsp_simd/SIMD/chowdsp_SIMDAlignmentHelpers.h:18-22 | definition of `snapPointerToAlignment`: `(p + (a - 1)) & ~(a - 1)` with 64-bit wrap-around and complement; what it returns is stated by `Alignment.SnapRoundsUp` and `Alignment.SnapIsLeastMultiple` |
| Alignment.GetNextAlignedPtr | modules/dsp/chowdsp_simd/SIMD/chowdsp_SIMDAlignmentHelpers.h:24-30 | definition of `getNextAlignedPtr`: snap to the register size; its meaning is `Alignment.NextAlignedPtrIsAligned` |
| Alignment.NextAlignedPtrIsAligned | modules/dsp/chowdsp_simd/SIMD/chowdsp_SIMDAlignmentHelpers.h:24-30 | the next aligned pointer passes `isAligned`, lies in `[p, p + RegisterSize)`, and is `p` itself when `p` is already aligned |
| FvoDetail.VecSizeFacts | modules/dsp/chowdsp_simd/SIMD/chowdsp_SIMDArchitectures.h:20-37 | every architecture has at least two lanes of either sample type, its lanes fill the register exactly, and the register size is a power of two |
| FvoDetail.AlignedAtIff | modules/dsp/chowdsp_simd/SIMD/chowdsp_SIMDAlignmentHelpers.h:6-12 | the kernels' alignment predicate agrees with `isAligned` at the architecture's register size |
| FvoDetail.AlignedStep | modules/dsp/chowdsp_math/Math/chowdsp_FloatVectorOperations.cpp:214-218 | advancing an aligned pointer by one register keeps it aligned |
| FvoDetail.ChunksOfQuotient | modules/dsp/chowdsp_math/Math/chowdsp_FloatVectorOperations.cpp:21-41 | `n / vecSize` chunks of `vecSize` cover exactly `n - n % vecSize` elements, leaving `n % vecSize` for the tail |
| FvoDetail.Store | modules/dsp/chowdsp_math/Math/chowdsp_FloatVectorOperations.cpp:53-57 | a store writes the batch into the `vecSize` cells at its target and nothing else |
| FvoDetail.UnaryOpFallback | modules/dsp/chowdsp_math/Math/chowdsp_FloatVectorOperations.cpp:10-15 | `dest[i] = op(src[i])` for `i < n`; every other cell is unchanged |
| FvoDetail.UnaryStep | modules/dsp/chowdsp_math/Math/chowdsp_FloatVectorOperations.cpp:33 | one load-map-store writes `op` of the source lanes into the destination chunk and nothing else |
| FvoDetail.UnaryWrite | modules/dsp/chowdsp_math/Math/chowdsp_FloatVectorOperations.cpp:33 | one chunk preserves the loop invariant: source not yet read is intact, and the destination is mapped up to the cursor |
| FvoDetail.UnaryChunk | modules/dsp/chowdsp_math/Math/chowdsp_FloatVectorOperations.cpp:31-36 | one iteration advances both pointers by `vecSize`, keeps their alignment, and extends the mapped prefix |
| FvoDetail.UnaryVecLoop | modules/dsp/chowdsp_math/Math/chowdsp_FloatVectorOperations.cpp:31-36 | after `numVecOps` chunks the first `numVecOps * vecSize` cells hold `op(src[i])` and both cursors sit just past them |
| FvoDetail.UnaryTail | modules/dsp/chowdsp_math/Math/chowdsp_FloatVectorOperations.cpp:39-41 | the scalar tail extends the mapped prefix by the leftover count |
| FvoDetail.UnaryVecPath | modules/dsp/chowdsp_math/Math/chowdsp_FloatVectorOperations.cpp:30-41 | chunks plus tail give `dest[i] = op(src[i])` for `i < n` and nothing beyond |
| FvoDetail.UnaryOpWith | modules/dsp/chowdsp_math/Math/chowdsp_FloatVectorOperations.cpp:17-42 | for any choice of aligned or unaligned load and store, both paths give `dest[i] = op(src[i])` for `i < n`, and nothing else is written |
| FvoDetail.UnaryOp | modules/dsp/chowdsp_math/Math/chowdsp_FloatVectorOperations.cpp:44-79 | the alignment-dispatching entry point computes the same element-wise map |
| FvoDetail.BinaryOpFallback | modules/dsp/chowdsp_math/Math/chowdsp_FloatVectorOperations.cpp:81-86 | `dest[i] = op(src1[i], src2[i])` for `i < n`; every other cell is unchanged |
| FvoDetail.BinaryStep | modules/dsp/chowdsp_math/Math/chowdsp_FloatVectorOperations.cpp:104 | one two-load map-store writes the destination chunk and nothing else |
| FvoDetail.BinaryWrite | modules/dsp/chowdsp_math/Math/chowdsp_FloatVectorOperations.cpp:104 | one chunk preserves the two-source loop invariant |
| FvoDetail.BinaryChunk | modules/dsp/chowdsp_math/Math/chowdsp_FloatVectorOperations.cpp:102-108 | one iteration advances all three pointers by `vecSize`, keeping alignment and the mapped prefix |
| FvoDetail.BinaryVecLoop | modules/dsp/chowdsp_math/Math/chowdsp_FloatVectorOperations.cpp:102-108 | after `numVecOps` chunks the first `numVecOps * vecSize` cells hold `op(src1[i], src2[i])` |
| FvoDetail.BinaryTail | modules/dsp/chowdsp_math/Math/chowdsp_FloatVectorOperations.cpp:111-113 | the scalar tail extends the mapped prefix by the leftover count |
| FvoDetail.BinaryVecPath | modules/dsp/chowdsp_math/Math/chowdsp_FloatVectorOperations.cpp:101-113 | chunks plus tail give `dest[i] = op(src1[i], src2[i])` for `i < n` and nothing beyond |
| FvoDetail.BinaryOpWith | modules/dsp/chowdsp_math/Math/chowdsp_FloatVectorOperations.cpp:88-114 | all eight load/load/store alignment combinations and both paths compute the same element-wise map |
| FvoDetail.BinaryOp | modules/dsp/chowdsp_math/Math/chowdsp_FloatVectorOperations.cpp:116-171 | the alignment-dispatching entry point computes `dest[i] = op(src1[i], src2[i])` for `i < n` |
| FvoDetail.ReduceFallback | modules/dsp/chowdsp_math/Math/chowdsp_FloatVectorOperations.cpp:173-180 | the scalar loop returns the left fold of `op` over the first `n` values, starting from `init` |
| FvoDetail.AlignedToElement | modules/dsp/chowdsp_math/Math/chowdsp_FloatVectorOperations.cpp:204-205 | a register-aligned address is also element-aligned |
| FvoDetail.ElementGap | modules/dsp/chowdsp_math/Math/chowdsp_FloatVectorOperations.cpp:205 | the byte gap to the next aligned address is a whole number of elements, fewer than one vector |
| FvoDetail.PeelFacts | modules/dsp/chowdsp_math/Math/chowdsp_FloatVectorOperations.cpp:202-207 | the next aligned pointer is aligned, lies at or after `src`, and is fewer than `vecSize` elements away |
| FvoDetail.PeelFits | modules/dsp/chowdsp_math/Math/chowdsp_FloatVectorOperations.cpp:205-207 | advancing `src` by `diff` elements lands on the aligned address with `numValues - diff` elements still in bounds |
| FvoDetail.PeelTarget | modules/dsp/chowdsp_math/Math/chowdsp_FloatVectorOperations.cpp:204-205 | `diff` is below `vecSize` and at most `n`, and the address `diff` elements on is aligned and in bounds |
| FvoDetail.ValuesSplit | modules/dsp/chowdsp_math/Math/chowdsp_FloatVectorOperations.cpp:206-207 | the first `i + j` values are the first `i` followed by the `j` after them |
| FvoDetail.FoldSplit | modules/dsp/chowdsp_math/Math/chowdsp_FloatVectorOperations.cpp:206-207 | folding `n` values equals folding the peeled prefix, then folding the rest from that result |
| FvoDetail.Fold2Split | modules/dsp/chowdsp_math/Math/chowdsp_FloatVectorOperations.cpp:287-289 | the same split for the two-source fold, where the tail continues from the vector result |
| FvoDetail.FoldChunk | modules/dsp/chowdsp_math/Math/chowdsp_FloatVectorOperations.cpp:216 | one lane-wise step over the next loaded chunk keeps the lanes representing the fold of everything read so far |
| FvoDetail.ReduceChunk | modules/dsp/chowdsp_math/Math/chowdsp_FloatVectorOperations.cpp:214-218 | one aligned load and lane step, taken while steps remain, advances the source cursor by `vecSize`, uses up one step and extends the represented fold |
| FvoDetail.ReduceVecLoop | modules/dsp/chowdsp_math/Math/chowdsp_FloatVectorOperations.cpp:211-218 | starting from the `init` seed batch, after `numVecOps` chunks the lanes represent the fold of the first `numVecOps * vecSize` values |
| FvoDetail.ReduceAligned | modules/dsp/chowdsp_math/Math/chowdsp_FloatVectorOperations.cpp:210-227 | on an aligned pointer, the seed, vector loop, horizontal reduction and scalar tail return the left fold over all `n` values |
| FvoDetail.Reduce | modules/dsp/chowdsp_math/Math/chowdsp_FloatVectorOperations.cpp:191-241 | for the two reductions the library passes (a sum of `f(x)` and an absolute maximum), on every path (fallback, peel then recurse, aligned vector path) the result is the left fold of `op` from `init`; the recursion ends because the peeled pointer is aligned |
| FvoDetail.ReduceFallback2 | modules/dsp/chowdsp_math/Math/chowdsp_FloatVectorOperations.cpp:182-189 | the two-source scalar loop returns the two-source left fold from `init` |
| FvoDetail.CursorStep | modules/dsp/chowdsp_math/Math/chowdsp_FloatVectorOperations.cpp:260-261 | advancing a source cursor by `vecSize` keeps it in bounds and, for aligned loads, aligned |
| FvoDetail.Fold2Chunk | modules/dsp/chowdsp_math/Math/chowdsp_FloatVectorOperations.cpp:259 | one lane-wise two-source step keeps the lane sum equal to the two-source fold of everything read so far |
| FvoDetail.Reduce2Lanes | modules/dsp/chowdsp_math/Math/chowdsp_FloatVectorOperations.cpp:259 | the lane update from one load of each source sums to the two-source fold extended by `vecSize` values |
| FvoDetail.Reduce2Chunk | modules/dsp/chowdsp_math/Math/chowdsp_FloatVectorOperations.cpp:257-262 | one iteration of `vecLoop` advances both cursors and extends the represented two-source fold |
| FvoDetail.Reduce2VecLoop | modules/dsp/chowdsp_math/Math/chowdsp_FloatVectorOperations.cpp:254-265 | after `numVecOps` iterations the lanes sum to the two-source fold of the first `numVecOps * vecSize` pairs, starting from the seed's sum |
| FvoDetail.Reduce2Vector | modules/dsp/chowdsp_math/Math/chowdsp_FloatVectorOperations.cpp:253-291 | for any of the four load selections, the vector loop, `reduce_add` and the tail return the two-source fold of all `n` pairs from the seed's sum |
| FvoDetail.Reduce2AsWritten | modules/dsp/chowdsp_math/Math/chowdsp_FloatVectorOperations.cpp:243-292 | as written: the scalar path folds from `init`, but the vector path (`n / vecSize >= 2`) folds from 0 because of the zero batch at line 256 |
| FvoDetail.Reduce2AsWrittenDropsInit | modules/dsp/chowdsp_math/Math/chowdsp_FloatVectorOperations.cpp:256 | on the vector path the as-written result is exactly `init` lower than the fold from `init` |
| FvoDetail.Reduce2 | modules/dsp/chowdsp_math/Math/chowdsp_FloatVectorOperations.cpp:243-305 | with the vector accumulator seeded with `init`, every path returns the two-source left fold from `init` |
| ReductionSpec.Abs | modules/dsp/chowdsp_math/Math/chowdsp_FloatVectorOperations.cpp:574 | the absolute value is non-negative and is `x` or `-x` |
| ReductionSpec.Max | modules/dsp/chowdsp_math/Math/chowdsp_FloatVectorOperations.cpp:574 | `jmax` is an upper bound of both arguments and equals one of them |
| ReductionSpec.FoldAppend | modules/dsp/chowdsp_math/Math/chowdsp_FloatVectorOperations.cpp:173-180 | folding a concatenation equals folding the second part from the first part's result |
| ReductionSpec.FoldAddTerm | modules/dsp/chowdsp_math/Math/chowdsp_FloatVectorOperations.cpp:453-458 | an additive fold is `init` plus the total of the mapped terms |
| ReductionSpec.FoldMaxAbs | modules/dsp/chowdsp_math/Math/chowdsp_FloatVectorOperations.cpp:569-577 | the absolute-maximum fold of a non-empty input is the larger of the started accumulator and the largest absolute value, and is non-negative |
| ReductionSpec.SumSeed | modules/dsp/chowdsp_math/Math/chowdsp_FloatVectorOperations.cpp:211-213 | the seed batch (`init` in lane 0, zeros in the other lanes) sums to `init` |
| ReductionSpec.SumLaneStep | modules/dsp/chowdsp_math/Math/chowdsp_FloatVectorOperations.cpp:216 | an additive lane step (the scalar step `prev + f(next)` applied lane by lane) raises the lane sum by the batch's total |
| ReductionSpec.MaxLaneStep | modules/dsp/chowdsp_math/Math/chowdsp_FloatVectorOperations.cpp:575-576 | an absolute-maximum lane step (the scalar `jmax` step applied lane by lane) keeps the lanes non-negative, and their maximum becomes the larger of the old maximum and the batch's largest absolute value |
| ReductionSpec.MaxSeedStep | modules/dsp/chowdsp_math/Math/chowdsp_FloatVectorOperations.cpp:211-216 | the first step from the seed batch leaves non-negative lanes whose maximum is the larger of the started accumulator (`|init|` for float, `init` itself for double) and the batch's largest absolute value; the zero lanes cannot raise it |
| ReductionSpec.RepresentsSeed | modules/dsp/chowdsp_math/Math/chowdsp_FloatVectorOperations.cpp:211-213 | the seed batch (`init` in lane 0, zeros elsewhere) represents the fold of nothing: for a running sum its lanes sum to `init`; for an absolute maximum the lanes are the seed itself |
| ReductionSpec.SumStep | modules/dsp/chowdsp_math/Math/chowdsp_FloatVectorOperations.cpp:216 | if the lanes sum to the fold of a prefix, then after one step they sum to the fold of the prefix plus the batch |
| ReductionSpec.MaxStep | modules/dsp/chowdsp_math/Math/chowdsp_FloatVectorOperations.cpp:216 | the same for the maximum of non-negative lanes |
| ReductionSpec.MaxFirstStep | modules/dsp/chowdsp_math/Math/chowdsp_FloatVectorOperations.cpp:211-216 | the first step from the seed batch makes the lane maximum the fold over that batch |
| ReductionSpec.RepresentsStep | modules/dsp/chowdsp_math/Math/chowdsp_FloatVectorOperations.cpp:214-218 | one lane step preserves "the lanes represent the fold of what has been read" |
| ReductionSpec.RepresentsResult | modules/dsp/chowdsp_math/Math/chowdsp_FloatVectorOperations.cpp:220 | the horizontal reduction (`reduce_add` or `reduce_max`) of representing lanes is the fold itself |
| ReductionSpec.Fold2Total | modules/dsp/chowdsp_math/Math/chowdsp_FloatVectorOperations.cpp:182-189 | a two-source additive fold is `init` plus the total of the pairwise terms |
| ReductionSpec.Fold2Append | modules/dsp/chowdsp_math/Math/chowdsp_FloatVectorOperations.cpp:182-189 | folding concatenated pairs equals folding the second part from the first part's result |
| ReductionSpec.SumLaneStep2 | modules/dsp/chowdsp_math/Math/chowdsp_FloatVectorOperations.cpp:259 | a two-source lane step (`prev + op(a, b)` lane by lane) raises the lane sum by the batch's pairwise total |
| ReductionSpec.Represents2Step | modules/dsp/chowdsp_math/Math/chowdsp_FloatVectorOperations.cpp:257-262 | one two-source lane step extends the represented fold by the loaded pairs |
| VectorOps.Quotient | modules/dsp/chowdsp_math/Math/chowdsp_FloatVectorOperations.cpp:338-345 | a quotient with a non-zero divisor times the divisor gives back the dividend |
| VectorOps.PowAdd | modules/dsp/chowdsp_math/Math/chowdsp_FloatVectorOperations.cpp:626-712 | `x^(a+b) = x^a * x^b` |
| VectorOps.PowSmall | modules/dsp/chowdsp_math/Math/chowdsp_FloatVectorOperations.cpp:635-643 | exponents 0, 1 and 2 give 1, `x` and `x * x`, matching the fill, copy and multiply branches |
| VectorOps.DotSnoc | modules/dsp/chowdsp_math/Math/chowdsp_FloatVectorOperations.cpp:499-517 | appending a pair adds its product to the inner product |
| VectorOps.FoldProductIsDot | modules/dsp/chowdsp_math/Math/chowdsp_FloatVectorOperations.cpp:499-517 | the two-source fold of `prev + a * b` from 0 is the inner product |
| VectorOps.DotSymmetric | modules/dsp/chowdsp_math/Math/chowdsp_FloatVectorOperations.cpp:499-517 | the inner product does not depend on the order of its arguments |
| VectorOps.FoldIdentityIsSum | modules/dsp/chowdsp_math/Math/chowdsp_FloatVectorOperations.cpp:443-460 | the additive fold from 0 is the sum |
| VectorOps.SumAppend | modules/dsp/chowdsp_math/Math/chowdsp_FloatVectorOperations.cpp:443-460 | the sum of a concatenation is the sum of the parts |
| VectorOps.SumOfSquaresNonNegative | modules/dsp/chowdsp_math/Math/chowdsp_FloatVectorOperations.cpp:771-775 | the sum of squares is non-negative, and zero for an all-zero input |
| VectorOps.SumOfSquaresIsSelfDot | modules/dsp/chowdsp_math/Math/chowdsp_FloatVectorOperations.cpp:771-775 | the sum of squares is the inner product of the input with itself |
| VectorOps.MaxAbsOfBounds | modules/dsp/chowdsp_math/Math/chowdsp_FloatVectorOperations.cpp:557-580 | the absolute maximum is non-negative and bounds every `|src[i]|` |
| VectorOps.MaxAbsOfAttained | modules/dsp/chowdsp_math/Math/chowdsp_FloatVectorOperations.cpp:557-580 | some element attains the absolute maximum |
| VectorOps.MaxAbsOfPermutation | modules/dsp/chowdsp_math/Math/chowdsp_FloatVectorOperations.cpp:557-580 | the absolute maximum does not change when the input is permuted |
| VectorOps.CountOfBounds | modules/dsp/chowdsp_math/Math/chowdsp_FloatVectorOperations.cpp:823-865 | the count lies in `[0, n]`; it is `n` iff every element passes and 0 iff none does |
| VectorOps.Divide | modules/dsp/chowdsp_math/Math/chowdsp_FloatVectorOperations.cpp:329-347 | `dest[i] = dividend[i] / divisor[i]` for `i < n`; nothing else is written |
| VectorOps.DivideScalar | modules/dsp/chowdsp_math/Math/chowdsp_FloatVectorOperations.cpp:387-404 | `dest[i] = dividend / divisor[i]` for `i < n`; nothing else is written |
| VectorOps.Accumulate | modules/dsp/chowdsp_math/Math/chowdsp_FloatVectorOperations.cpp:443-460 | the result is the sum of the first `n` values on every path |
| VectorOps.InnerProduct | modules/dsp/chowdsp_math/Math/chowdsp_FloatVectorOperations.cpp:499-517 | through the two-source `reduce` as written (`Reduce2AsWritten`) from 0, the result is the inner product of the first `n` pairs: with `init` 0 the dropped seed makes no difference |
| VectorOps.FindAbsoluteMaximum | modules/dsp/chowdsp_math/Math/chowdsp_FloatVectorOperations.cpp:557-580 | 0 for an empty input, otherwise the largest `|src[i]|`; never negative |
| VectorOps.IntegerPower | modules/dsp/chowdsp_math/Math/chowdsp_FloatVectorOperations.cpp:626-712 | for a non-negative exponent `e`, `dest[i] = src[i]^e` for `i < n` through every branch (fill 1, copy, multiply, `ipow`, default); nothing else is written |
| VectorOps.SumOfSquares | modules/dsp/chowdsp_math/Math/chowdsp_FloatVectorOperations.cpp:755-778 | the reduction inside `computeRMS` returns the sum of squares, which is non-negative |
| VectorOps.CountWhere | modules/dsp/chowdsp_math/Math/chowdsp_FloatVectorOperations.cpp:823-865 | the loop returns the number of elements passing the test, at most `n` |
| SimdDispatch.AdvancedArch | modules/dsp/chowdsp_simd/SIMD/chowdsp_SIMDArchitectures.h:20-37 | the advanced architecture's register is never narrower than the base one, and it differs from the base only on Intel with AVX |
| SimdDispatch.FloatVectorOperations.constructor | modules/dsp/chowdsp_math/Math/chowdsp_FloatVectorOperations.h:87 | the flag starts false |
| SimdDispatch.FloatVectorOperations.IsUsingAdvancedSIMDArch | modules/dsp/chowdsp_math/Math/chowdsp_FloatVectorOperations.cpp:319-322 | when the query returns true the `<void>` entry points run the advanced architecture, and when it returns false they run the base one |
| SimdDispatch.FloatVectorOperations.SetUsingAdvancedSIMDArch | modules/dsp/chowdsp_math/Math/chowdsp_FloatVectorOperations.cpp:319-327 | afterwards `isUsingAdvancedSIMDArch` returns the value set, and the `<void>` entry points use the advanced architecture iff that value is true (or the two coincide) |
| SimdDispatch.FloatVectorOperations.Divide | modules/dsp/chowdsp_math/Math/chowdsp_FloatVectorOperations.cpp:349-356 | the dispatched divide computes element-wise quotients whichever architecture the flag selects |
| SimdDispatch.FloatVectorOperations.DivideScalar | modules/dsp/chowdsp_math/Math/chowdsp_FloatVectorOperations.cpp:406-413 | the dispatched scalar divide computes `dividend / divisor[i]` |
| SimdDispatch.FloatVectorOperations.Accumulate | modules/dsp/chowdsp_math/Math/chowdsp_FloatVectorOperations.cpp:462-469 | the dispatched accumulate returns the sum |
| SimdDispatch.FloatVectorOperations.InnerProduct | modules/dsp/chowdsp_math/Math/chowdsp_FloatVectorOperations.cpp:519-526 | the dispatched inner product returns the inner product |
| SimdDispatch.FloatVectorOperations.FindAbsoluteMaximum | modules/dsp/chowdsp_math/Math/chowdsp_FloatVectorOperations.cpp:582-589 | the dispatched absolute maximum returns 0 for an empty input, otherwise the largest absolute value |
| SimdDispatch.FloatVectorOperations.IntegerPower | modules/dsp/chowdsp_math/Math/chowdsp_FloatVectorOperations.cpp:726-733 | the dispatched integer power computes `src[i]^e` element-wise |
| SimdDispatch.FloatVectorOperations.SumOfSquares | modules/dsp/chowdsp_math/Math/chowdsp_FloatVectorOperations.cpp:780-787 | the dispatched sum of squares is the sum of squares and is non-negative |
| Buffers.ExposedCoversGrowth | modules/dsp/chowdsp_dsp_data_structures/Buffers/chowdsp_Buffer.cpp:35-48 | the cells that `setCurrentSize` zero-fills include every newly active cell and no previously active cell |
| Buffers.ClearChannel | modules/dsp/chowdsp_dsp_data_structures/Buffers/chowdsp_Buffer.cpp:41 | samples `[from, to)` of a channel become 0; the rest keep their values |
| Buffers.Buffer.Valid | modules/dsp/chowdsp_dsp_data_structures/Buffers/chowdsp_Buffer.cpp:11-32 | the buffer invariant: each allocated channel is its own array of `allocatedSamples` samples; the first channel pointers point at those arrays and the rest are null; the active region lies inside the allocation; and when `hasBeenCleared` holds every active sample is 0 |
| Buffers.Buffer.constructor | modules/dsp/chowdsp_dsp_data_structures/Buffers/chowdsp_Buffer.cpp:5-9 | the constructor is `setMaxSize`: `max(c, 1)` channels of `s` samples, all active and cleared |
| Buffers.Buffer.SetMaxSize | modules/dsp/chowdsp_dsp_data_structures/Buffers/chowdsp_Buffer.cpp:11-32 | for `0 <= c < maxNumChannels` and `s > 0`: the size becomes `(max(c, 1), s)`, every allocated sample is 0, the flag is set, and the channel pointers past the allocated channels are null |
| Buffers.Buffer.SetCurrentSize | modules/dsp/chowdsp_dsp_data_structures/Buffers/chowdsp_Buffer.cpp:34-48 | exactly the newly exposed cells are zeroed, the previous active region and the flag are untouched, the new size is recorded, and the invariant holds |
| Buffers.Buffer.ClearRegion | modules/dsp/chowdsp_dsp_data_structures/Buffers/chowdsp_Buffer.cpp:40-44 | a channel-by-sample rectangle becomes 0 and every other sample is unchanged |
| Buffers.Buffer.GetWritePointer | modules/dsp/chowdsp_dsp_data_structures/Buffers/chowdsp_Buffer.cpp:50-55 | returns the same pointer as `getReadPointer` and clears `hasBeenCleared`, changing nothing else |
| Buffers.Buffer.GetReadPointer | modules/dsp/chowdsp_dsp_data_structures/Buffers/chowdsp_Buffer.cpp:57-61 | returns the channel's array for an allocated channel and null beyond |
| Buffers.Buffer.GetArrayOfWritePointers | modules/dsp/chowdsp_dsp_data_structures/Buffers/chowdsp_Buffer.cpp:63-68 | returns the read pointers and clears `hasBeenCleared`, changing nothing else |
| Buffers.Buffer.GetArrayOfReadPointers | modules/dsp/chowdsp_dsp_data_structures/Buffers/chowdsp_Buffer.cpp:70-74 | `maxNumChannels` pointers: the allocated channels, then null |
| Buffers.Buffer.Clear | modules/dsp/chowdsp_dsp_data_structures/Buffers/chowdsp_Buffer.cpp:104-112 | zeroes the active region and sets the flag, touching nothing outside it; when the flag was already set nothing changes, so a second clear is a no-op |
| ModalBank.CeilDiv | modules/dsp/chowdsp_modal_dsp/ModalFilters/chowdsp_ModalFilterBank.cpp:107 | definition of `Math::ceiling_divide` as `(n + d - 1) / d`; its meaning is `ModalBank.CeilDivIsLeast` |
| ModalBank.CeilDivIsLeast | modules/dsp/chowdsp_modal_dsp/ModalFilters/chowdsp_ModalFilterBank.cpp:107 | `ceiling_divide(n, d)` groups cover `n` modes, and one group fewer would not |
| ModalBank.CeilDivMonotonic | modules/dsp/chowdsp_modal_dsp/ModalFilters/chowdsp_ModalFilterBank.cpp:104-107 | fewer modes never need more groups, so `numVecModesToProcess <= maxNumVecModes` |
| ModalBank.ModeIndexSplit | modules/dsp/chowdsp_modal_dsp/ModalFilters/chowdsp_ModalFilterBank.cpp:11 | scalar index `i * vecSize + j` belongs to group `i`, lane `j` |
| ModalBank.ModeIndexCovers | modules/dsp/chowdsp_modal_dsp/ModalFilters/chowdsp_ModalFilterBank.cpp:8-15 | every scalar index below `numGroups * vecSize` is some group's lane |
| ModalBank.LaneBatch | modules/dsp/chowdsp_modal_dsp/ModalFilters/chowdsp_ModalFilterBank.cpp:10-11 | the inner loop fills the batch of group `i` from scalar modes `i * vecSize + j`, and the visit trace grows by exactly those indices |
| ModalBank.NormalizationFactor | modules/dsp/chowdsp_modal_dsp/ModalFilters/chowdsp_ModalFilterBank.cpp:42-50 | the factor times `|amp[0]|` is `normalize` when both are positive; otherwise it is exactly 1; it is always positive |
| ModalBank.MaskedAmplitude | modules/dsp/chowdsp_modal_dsp/ModalFilters/chowdsp_ModalFilterBank.cpp:59 | a mode at or past `numModesToProcess` gets amplitude 0; a processed mode that has an amplitude gets it times the normalisation factor |
| ModalBank.LaneFrequency | modules/dsp/chowdsp_modal_dsp/ModalFilters/chowdsp_ModalFilterBank.cpp:72-73 | a padding lane (no base frequency) gets 0; a lane never exceeds a non-negative `maxFreq`; a scaled base frequency at or below `maxFreq` is kept as is |
| ModalBank.CutAbove | modules/dsp/chowdsp_modal_dsp/ModalFilters/chowdsp_ModalFilterBank.cpp:73 | a frequency above `maxFreq` becomes 0 and any other is kept, so the stored value never exceeds a non-negative `maxFreq` |
| ModalBank.LanesMaskedKeptByAmplitudes | modules/dsp/chowdsp_modal_dsp/ModalFilters/chowdsp_ModalFilterBank.cpp:53-63 | the amplitude masking depends only on the groups' amplitudes |
| ModalBank.Run | modules/dsp/chowdsp_modal_dsp/ModalFilters/chowdsp_ModalFilterBank.cpp:143-146 | running one group over a block yields one output per input sample |
| ModalBank.Mix | modules/dsp/chowdsp_modal_dsp/ModalFilters/chowdsp_ModalFilterBank.cpp:141-146 | the mix over groups yields one output per input sample |
| ModalBank.RunPrefix | modules/dsp/chowdsp_modal_dsp/ModalFilters/chowdsp_ModalFilterBank.cpp:143-146 | one group's rendering is causal: its first `m` outputs depend only on the first `m` inputs |
| ModalBank.RunStep | modules/dsp/chowdsp_modal_dsp/ModalFilters/chowdsp_ModalFilterBank.cpp:162-166 | sample `n` is the modulator applied once to the group state after `n` samples, then one step whose lane sum is the output |
| ModalBank.MixPrefix | modules/dsp/chowdsp_modal_dsp/ModalFilters/chowdsp_ModalFilterBank.cpp:141-146 | the rendered mix is causal |
| ModalBank.ModalFilterBank.DoForModes | modules/dsp/chowdsp_modal_dsp/ModalFilters/chowdsp_ModalFilterBank.cpp:3-16 | group `i` receives the batch of scalar modes `i * vecSize + j`, and the per-mode function sees every index in `[0, maxNumVecModes * vecSize)` once, in increasing order |
| ModalBank.ModalFilterBank.SetModeAmplitudesInternal | modules/dsp/chowdsp_modal_dsp/ModalFilters/chowdsp_ModalFilterBank.cpp:52-63 | lane amplitude `k` is `amp[k] * factor` when `k < numModesToProcess` and 0 otherwise; nothing but amplitudes changes |
| ModalBank.ModalFilterBank.UpdateAmplitudeNormalizationFactor | modules/dsp/chowdsp_modal_dsp/ModalFilters/chowdsp_ModalFilterBank.cpp:42-50 | the factor becomes the normalisation factor of `normalize` and `|amp[0]|`, with all else kept |
| ModalBank.ModalFilterBank.SetModeAmplitudes | modules/dsp/chowdsp_modal_dsp/ModalFilters/chowdsp_ModalFilterBank.cpp:34-40 | the amplitudes are stored, the factor is recomputed from the new `amp[0]`, and the lanes are masked |
| ModalBank.ModalFilterBank.SetModeAmplitudesFromParts | modules/dsp/chowdsp_modal_dsp/ModalFilters/chowdsp_ModalFilterBank.cpp:24-32 | amplitude `k` becomes `(re[k], im[k])`, then the same as above |
| ModalBank.ModalFilterBank.SetModeFrequencies | modules/dsp/chowdsp_modal_dsp/ModalFilters/chowdsp_ModalFilterBank.cpp:65-77 | lane `k` gets `base[k] * mult` (0 for padding lanes), replaced by 0 when above `maxFreq`; only frequencies change |
| ModalBank.ModalFilterBank.SetModeDecays | modules/dsp/chowdsp_modal_dsp/ModalFilters/chowdsp_ModalFilterBank.cpp:79-88 | lane `k` gets `tau2t60(tau[k]) * decayFactor`, with tau 1 for padding lanes; only decays change |
| ModalBank.ModalFilterBank.SetModeDecaysT60 | modules/dsp/chowdsp_modal_dsp/ModalFilters/chowdsp_ModalFilterBank.cpp:90-99 | lane `k` gets `t60[k]`, 0 for padding lanes; only decays change |
| ModalBank.ModalFilterBank.SetNumModesToProcess | modules/dsp/chowdsp_modal_dsp/ModalFilters/chowdsp_ModalFilterBank.cpp:101-112 | for `n <= maxNumModes`: the group count is the least count covering `n`, the lanes are re-masked, groups past it are reset, and lower groups keep their state apart from amplitudes |
| ModalBank.ModalFilterBank.Prepare | modules/dsp/chowdsp_modal_dsp/ModalFilters/chowdsp_ModalFilterBank.cpp:114-122 | `maxFreq` becomes `0.495 * sampleRate`, the render buffer gets one channel of `samplesPerBlock` samples, all active, all 0 and marked cleared, and every group is prepared at the sample rate |
| ModalBank.ModalFilterBank.Reset | modules/dsp/chowdsp_modal_dsp/ModalFilters/chowdsp_ModalFilterBank.cpp:124-129 | every group is reset |
| ModalBank.ModalFilterBank.RenderGroup | modules/dsp/chowdsp_modal_dsp/ModalFilters/chowdsp_ModalFilterBank.cpp:143-146 | the inner loop adds one group's rendered lane sums to the render buffer and advances only that group |
| ModalBank.ModalFilterBank.RenderActiveGroups | modules/dsp/chowdsp_modal_dsp/ModalFilters/chowdsp_ModalFilterBank.cpp:141-146 | the outer loop adds the mix of the active groups, leaving samples past the block and inactive groups untouched |
| ModalBank.ModalFilterBank.Process | modules/dsp/chowdsp_modal_dsp/ModalFilters/chowdsp_ModalFilterBank.cpp:131-147 | the render buffer becomes one channel of `numSamples`, whose samples are the mix of the active groups' lane sums; inactive groups do not advance; with no active groups the output is silent |
| ModalBank.ModalFilterBank.ProcessWithModulation | modules/dsp/chowdsp_modal_dsp/ModalFilters/chowdsp_ModalFilterBank.cpp:149-169 | the same as `process`, with the modulator applied to each active group before each of its samples |

## Left out

- IEEE floating point: samples are exact reals, so rounding, NaN and infinity propagation are not modelled. `isnan`/`isinf` are the test parameter of `VectorOps.CountWhere`.
- VectorOps.Quotient: division by zero is given the value 0, because real division by zero has no IEEE result to model; only non-zero divisors are specified.
- VectorOps.IntegerPower: the `std::pow`/`xsimd::pow` branch for exponents above 16 is modelled as the exact power, like the `ipow` branches.
- VectorOps.SumOfSquares: `computeRMS` is modelled only up to its sum of squares; the final `sqrt(sum / n)` is transcendental.
- FvoDetail.UnaryOp, FvoDetail.BinaryOp: the output may share an array with an input only at the same element (`FvoDetail.NoPartialOverlap`). The source also accepts a shifted overlap such as `dest = src + 1`; its result then depends on the path taken and on the lane count, and the model does not describe it. The same holds for the lower-level unary and binary kernels.
- FvoDetail.UnaryOp, FvoDetail.BinaryOp: the source takes a scalar operation and a vector operation separately; the model takes one `op` and treats the vector operation as its lane-wise lift. Every call in `FloatVectorOperations.cpp` passes a generic lambda for both, except the `std::pow`/`xsimd::pow` pair of `integerPower`, which is also lane-wise the same function on reals. The same holds for the single- and two-source `reduce`, where `findAbsoluteMaximum` passes the pair `jmax (|a|, |b|)` and `xsimd::max (xsimd::abs (a), xsimd::abs (b))`, again the same function lane by lane.
- VectorOps.Divide, VectorOps.DivideScalar, VectorOps.IntegerPower: carry the same same-element-only overlap precondition, and so do their `SimdDispatch.FloatVectorOperations` twins.
- FvoDetail.Reduce, FvoDetail.ReduceFallback: the single-source `reduce` is modelled for the two operation families the library passes: `prev + f(next)` (sum, sum of squares) and the absolute maximum in its float and double forms. For an arbitrary `op` the vector path computes lane-wise partial results and combines them with the horizontal reduction (`reduce_add` unless another is passed), which is not a left fold. Such ops are not modelled.
- FvoDetail.ReduceFallback2, FvoDetail.Reduce2, FvoDetail.Reduce2AsWritten: the two-source `reduce` is modelled only for `prev + f(a, b)`, the form `innerProduct` uses.
- The Apple vDSP branches and the `CHOWDSP_NO_XSIMD` alternatives are not modelled; the xsimd paths are.
- `juce::FloatVectorOperations::fill/copy/multiply` in `integerPowerT` are given their element-wise meaning; their code is not part of this model.
- xsimd loads and stores are sequences of lanes. Aligned access is a precondition of the aligned variant, with no hardware fault modelled.
- Counts are `nat`: the source's behaviour for a negative `numValues` (every loop is skipped) is not modelled.
- Addresses are naturals below 2^64. `~(a - 1)` is modelled as `2^64 - a`, which is its value for `a` a power of two.
- Buffers.Buffer.SetCurrentSize: requires the new size to be within the allocation, a caller obligation the source does not check.
- `Buffer::toAudioBuffer`/`toAudioBlock` are JUCE wrapper constructors and are not modelled.
- ModalBank.ModalFilterBank.constructor: the bank's header is not part of this model. Initial state is therefore an assumption of the model: idle groups, zero amplitudes, `maxFreq` 0, all modes processed. The render buffer is allocated at construction as one channel of one sample. In the source it is default-constructed with no channels until `prepare`, so a `process` before `prepare` would write through a null channel pointer. In the model, such a call works for a block of at most one sample.
- The render buffer's channel capacity is a constructor parameter for the same reason.
- The resonator (`ModalFilter`) is a parameter. It contributes its per-sample step (`processSample`), `reset` and `prepare`. Their recurrences and coefficient formulas are in a header not part of this model.
- `tau2t60` and the complex magnitude `std::abs` are parameters, since their `log`/`exp`/`sqrt` are transcendental.
- ModalBank.ModalFilterBank.ProcessWithModulation: the modulator is a pure function from (group, group index, sample index) to a new group. The in-place reference update is captured by that function's result. That it is called exactly once per (group, sample) pair follows from the shape of `Run` (`ModalBank.RunStep`), not from a call counter.
- The modal examples, plugin glue, preset tests and lookup-table transform in the repository are outside this core.

## Findings

| source | as written | input that shows it | evidently intended | confidence | as-written member | corrected member |
|---|---|---|---|---|---|---|
| modules/dsp/chowdsp_math/Math/chowdsp_FloatVectorOperations.cpp:256 | the two-source `reduce` starts its vector accumulator from a zero batch, so on the vector path `init` is dropped | SSE2, float, `n = 8` (two chunks), `init = 1.0`: the result is the fold from 0, exactly 1 below the fold from `init`; `innerProduct` passes 0 and is unaffected | seed lane 0 with `init`, as the single-source `reduce` does at lines 211-213 | not executed | FvoDetail.Reduce2AsWritten (with FvoDetail.Reduce2AsWrittenDropsInit) | FvoDetail.Reduce2 |

`innerProduct`, the library's only caller of the two-source `reduce`, runs on the kernel as written in this model too (`VectorOps.InnerProduct` calls `FvoDetail.Reduce2AsWritten` with `init` 0), so the model shows that its result is right only because it passes 0. `FvoDetail.Reduce2` is the corrected kernel, proved to return the fold from `init` for every `init`.
