/**
 * The vectorised kernel engine of `chowdsp::FloatVectorOperations`
 * (namespace `fvo_detail`): element-wise `unaryOp` and `binaryOp`, and the
 * one- and two-source `reduce`.
 *
 * Samples are mathematical reals. A lane batch (`xsimd::batch<T, Arch>`) is a
 * sequence of `VecSize(arch, t)` samples, and a vector operation is the lane-wise
 * lift of the scalar one. A pointer is an array, an element offset into it and
 * the byte address of that element; the address decides which loads and stores
 * are aligned.
 */
module FvoDetail {
  import opened Alignment
  import opened ReductionSpec

  // ---------------------------------------------------------------------------
  // Architectures, sample types and pointers

  /** The SIMD instruction sets the library dispatches to. */
  datatype Arch = Sse2 | Avx | Neon64

  /** `float` or `double`; both are modelled by `real` samples. */
  datatype SampleType = Float | Double

  /** `Arch::alignment()`: bytes in one register. */
  function RegisterSize(arch: Arch): nat
  {
    match arch
    case Sse2 => 16
    case Avx => 32
    case Neon64 => 16
  }

  /** `sizeof (T)`. */
  function ElementBytes(t: SampleType): nat
  {
    match t
    case Float => 4
    case Double => 8
  }

  /** `xsimd::batch<T, Arch>::size`: samples per register, `RegisterSize / sizeof (T)`. */
  function VecSize(arch: Arch, t: SampleType): nat
  {
    match (arch, t)
    case (Avx, Float) => 8
    case (Avx, Double) => 4
    case (_, Float) => 4
    case (_, Double) => 2
  }

  /** Bytes taken by `n` elements of type `t`. */
  function Span(n: nat, t: SampleType): nat
  {
    match t
    case Float => 4 * n
    case Double => 8 * n
  }

  /** A `T*`: element `off` of `arr`, whose byte address is `addr`. */
  datatype Ptr = Ptr(arr: array<real>, off: nat, addr: Address)

  /** Which xsimd load or store a kernel uses for one operand. */
  datatype Access = Aligned | Unaligned

  /**
   * `p` points at `n` valid elements of type `t`: they lie inside the array, their
   * addresses do not pass the end of the address space, and `p` is aligned to the
   * element size as every `T*` is.
   */
  predicate Fits(p: Ptr, n: nat, t: SampleType)
  {
    && p.off + n <= p.arr.Length
    && p.addr + Span(n, t) < AddressSpace
    && p.addr % ElementBytes(t) == 0
  }

  /** `p + k` for a `T*`. */
  function Advance(p: Ptr, k: nat, t: SampleType): Ptr
    requires p.addr + Span(k, t) < AddressSpace
  {
    Ptr(p.arr, p.off + k, p.addr + Span(k, t))
  }

  /** The `n` samples that `p` points at. */
  function Values(p: Ptr, n: nat): seq<real>
    reads p.arr
    requires p.off + n <= p.arr.Length
  {
    p.arr[p.off..p.off + n]
  }

  /**
   * An output may share its array with an input only at the same element: the
   * in-place form `op (dest, dest, n)` is allowed, a shifted overlap is not.
   */
  predicate NoPartialOverlap(dest: Ptr, src: Ptr)
  {
    dest.arr == src.arr ==> dest.off == src.off
  }

  lemma VecSizeFacts(arch: Arch, t: SampleType)
    ensures VecSize(arch, t) >= 2
    ensures Span(VecSize(arch, t), t) == RegisterSize(arch)
    ensures RegisterSize(arch) % ElementBytes(t) == 0
    ensures IsPowerOfTwo(RegisterSize(arch))
  {
    assert IsPowerOfTwo(2);
    assert IsPowerOfTwo(4);
    assert IsPowerOfTwo(8);
    assert IsPowerOfTwo(16);
  }

  /** The address is a multiple of the register size. */
  predicate AlignedAt(x: int, arch: Arch)
  {
    x % RegisterSize(arch) == 0
  }

  /** `isAligned<Arch>` is the multiple-of-register-size test. */
  lemma AlignedAtIff(x: Address, arch: Arch)
    ensures IsAligned(x, RegisterSize(arch)) <==> AlignedAt(x, arch)
  {
    VecSizeFacts(arch, Float);
    IsAlignedIffMultiple(x, RegisterSize(arch));
  }

  /** Stepping an aligned pointer by one register keeps it aligned. */
  lemma AlignedStep(x: int, arch: Arch)
    requires AlignedAt(x, arch)
    ensures AlignedAt(x + RegisterSize(arch), arch)
  {
    var r := RegisterSize(arch);
    DivModUnique(x + r, r, x / r + 1, 0);
  }

  /** A pointer to `k + m` elements, advanced by `k`, points to `m` elements. */
  lemma AdvanceFits(p: Ptr, k: nat, m: nat, t: SampleType)
    requires Fits(p, k + m, t)
    ensures p.addr + Span(k, t) < AddressSpace
    ensures Fits(Advance(p, k, t), m, t)
  {
    var b := ElementBytes(t);
    assert Span(k, t) == k * b;
    DivModUnique(p.addr + k * b, b, p.addr / b + k, 0);
  }

  // ---------------------------------------------------------------------------
  // Lane batches

  /** `xsimd::load_aligned` / `load_unaligned`; the aligned form needs an aligned address. */
  function Load(p: Ptr, arch: Arch, t: SampleType, access: Access): (batch: seq<real>)
    reads p.arr
    requires p.off + VecSize(arch, t) <= p.arr.Length
    requires access == Aligned ==> AlignedAt(p.addr, arch)
    ensures |batch| == VecSize(arch, t)
  {
    p.arr[p.off..p.off + VecSize(arch, t)]
  }

  /** `xsimd::store_aligned` / `store_unaligned`; the aligned form needs an aligned address. */
  method Store(p: Ptr, arch: Arch, t: SampleType, access: Access, batch: seq<real>)
    requires |batch| == VecSize(arch, t) && p.off + |batch| <= p.arr.Length
    requires access == Aligned ==> AlignedAt(p.addr, arch)
    modifies p.arr
    ensures forall j :: 0 <= j < p.arr.Length ==>
      p.arr[j] == if p.off <= j < p.off + |batch| then batch[j - p.off] else old(p.arr[j])
  {
    forall j | p.off <= j < p.off + |batch| {
      p.arr[j] := batch[j - p.off];
    }
  }

  /**
   * The scalar operation applied to one sample, or to one pair of samples. The
   * operations are pure: they read no memory, so the contracts below state their
   * results through these functions.
   */
  function ApplyUnary(op: real -> real, x: real): real
  {
    op(x)
  }

  function ApplyBinary(op: (real, real) -> real, x: real, y: real): real
  {
    op(x, y)
  }

  /** A scalar operation applied lane by lane. */
  function LiftUnary(op: real -> real, batch: seq<real>): (r: seq<real>)
    ensures |r| == |batch|
  {
    seq(|batch|, i requires 0 <= i < |batch| => op(batch[i]))
  }

  function LiftBinary(op: (real, real) -> real, a: seq<real>, b: seq<real>): (r: seq<real>)
    requires |a| == |b|
    ensures |r| == |a|
  {
    seq(|a|, i requires 0 <= i < |a| => op(a[i], b[i]))
  }

  /**
   * The number of values covered by `count` register-wide steps of `size` values:
   * `count * size`, written as a recursion so that the loops stay linear.
   */
  ghost function Chunks(count: nat, size: nat): nat
  {
    if count == 0 then 0 else Chunks(count - 1, size) + size
  }

  /**
   * A loop that has covered `done` of `total` values with `count` steps to go
   * covers `size` more in its next step, without passing `total`.
   */
  lemma CountDown(done: nat, count: nat, size: nat, total: nat)
    requires count > 0 && Counted(done, count, size, total)
    ensures Counted(done + size, count - 1, size, total) && done + size <= total
  {
  }

  /** `done` values are covered and `count` steps of `size` remain before `total`. */
  ghost predicate Counted(done: nat, count: nat, size: nat, total: nat)
  {
    done + Chunks(count, size) == total
  }

  lemma {:induction false} ChunksIsProduct(count: nat, size: nat)
    ensures Chunks(count, size) == count * size
  {
    if count > 0 {
      ChunksIsProduct(count - 1, size);
      assert count * size == (count - 1) * size + size;
    }
  }

  /** `n / size` full steps cover all of `n` but the `n % size` leftover values. */
  lemma ChunksOfQuotient(n: nat, size: nat)
    requires size > 0
    ensures Chunks(n / size, size) == n - n % size
  {
    ChunksIsProduct(n / size, size);
  }

  /** The array `a` from index `from` onwards still holds the values `x`. */
  ghost predicate Unread(a: array<real>, from: nat, x: seq<real>)
    reads a
  {
    && |x| == a.Length
    && forall k {:trigger a[k]} :: from <= k < a.Length ==> a[k] == x[k]
  }

  /**
   * `dest` holds `op` of the values `x1` and `x2` of the sources from `dest.off` up to
   * `upto`, and its values `d0` everywhere else.
   */
  ghost predicate WrittenBinary(dest: Ptr, src1: Ptr, src2: Ptr, op: (real, real) -> real,
                          x1: seq<real>, x2: seq<real>, d0: seq<real>, upto: int)
    reads dest.arr
  {
    && |d0| == dest.arr.Length && dest.off <= upto
    && upto - dest.off + src1.off <= |x1| && upto - dest.off + src2.off <= |x2|
    && forall j {:trigger dest.arr[j]} :: 0 <= j < dest.arr.Length ==>
      dest.arr[j] == if dest.off <= j < upto
        then ApplyBinary(op, x1[j - dest.off + src1.off], x2[j - dest.off + src2.off])
        else d0[j]
  }

  /**
   * `dest` holds `op` of the values `x` of the source from `dest.off` up to `upto`,
   * and its values `d0` everywhere else.
   */
  ghost predicate WrittenUnary(dest: Ptr, src: Ptr, op: real -> real, x: seq<real>, d0: seq<real>, upto: int)
    reads dest.arr
  {
    && |d0| == dest.arr.Length && dest.off <= upto && upto - dest.off + src.off <= |x|
    && forall j {:trigger dest.arr[j]} :: 0 <= j < dest.arr.Length ==>
      dest.arr[j] == if dest.off <= j < upto then ApplyUnary(op, x[j - dest.off + src.off]) else d0[j]
  }

  // ---------------------------------------------------------------------------
  // unaryOp

  /** `unaryOpFallback`: a scalar loop writing `op (src[i])` to `dest[i]`. */
  method UnaryOpFallback(dest: Ptr, src: Ptr, n: nat, op: real -> real)
    requires dest.off + n <= dest.arr.Length && src.off + n <= src.arr.Length
    requires NoPartialOverlap(dest, src)
    modifies dest.arr
    ensures forall j :: 0 <= j < dest.arr.Length ==>
      dest.arr[j] == if dest.off <= j < dest.off + n then ApplyUnary(op, old(src.arr[j - dest.off + src.off])) else old(dest.arr[j])
  {
    for i := 0 to n
      invariant forall j :: 0 <= j < dest.arr.Length ==>
        dest.arr[j] == if dest.off <= j < dest.off + i then ApplyUnary(op, old(src.arr[j - dest.off + src.off])) else old(dest.arr[j])
    {
      dest.arr[dest.off + i] := op(src.arr[src.off + i]);
    }
  }

  /** One register-wide step of `unaryOp`: `storeOp (dest, vecOp (loadOp (src)))`. */
  method UnaryStep(arch: Arch, t: SampleType, d: Ptr, s: Ptr, op: real -> real, load: Access, store: Access)
    requires d.off + VecSize(arch, t) <= d.arr.Length && s.off + VecSize(arch, t) <= s.arr.Length
    requires NoPartialOverlap(d, s)
    requires load == Aligned ==> AlignedAt(s.addr, arch)
    requires store == Aligned ==> AlignedAt(d.addr, arch)
    modifies d.arr
    ensures forall j :: 0 <= j < d.arr.Length ==>
      d.arr[j] == if d.off <= j < d.off + VecSize(arch, t) then ApplyUnary(op, old(s.arr[j - d.off + s.off])) else old(d.arr[j])
  {
    Store(d, arch, t, store, LiftUnary(op, Load(s, arch, t, load)));
  }

  /**
   * The register-wide step of `unaryOp` in terms of the values the source held when
   * the loop began: the written prefix grows by one register and the unread part
   * shrinks by one.
   */
  method UnaryWrite(arch: Arch, t: SampleType, dest: Ptr, src: Ptr, d: Ptr, s: Ptr,
                    ghost x: seq<real>, ghost d0: seq<real>, op: real -> real, load: Access, store: Access)
    requires d.off + VecSize(arch, t) <= d.arr.Length && s.off + VecSize(arch, t) <= s.arr.Length
    requires d.arr == dest.arr && s.arr == src.arr && d.off - dest.off == s.off - src.off
    requires NoPartialOverlap(dest, src)
    requires load == Aligned ==> AlignedAt(s.addr, arch)
    requires store == Aligned ==> AlignedAt(d.addr, arch)
    requires Unread(src.arr, s.off, x) && WrittenUnary(dest, src, op, x, d0, d.off)
    modifies dest.arr
    ensures Unread(src.arr, s.off + VecSize(arch, t), x)
    ensures WrittenUnary(dest, src, op, x, d0, d.off + VecSize(arch, t))
  {
    UnaryStep(arch, t, d, s, op, load, store);
  }

  /**
   * One iteration of the main loop of `unaryOp`: a register-wide step followed by
   * advancing both pointers past it, which keeps them aligned.
   */
  method UnaryChunk(arch: Arch, t: SampleType, dest: Ptr, src: Ptr, d: Ptr, s: Ptr, ghost rest: nat,
                    ghost x: seq<real>, ghost d0: seq<real>, op: real -> real, load: Access, store: Access)
    returns (d': Ptr, s': Ptr)
    requires rest >= VecSize(arch, t)
    requires Fits(d, rest, t) && Fits(s, rest, t)
    requires d.arr == dest.arr && s.arr == src.arr && d.off - dest.off == s.off - src.off
    requires NoPartialOverlap(dest, src)
    requires load == Aligned ==> AlignedAt(s.addr, arch)
    requires store == Aligned ==> AlignedAt(d.addr, arch)
    requires Unread(src.arr, s.off, x) && WrittenUnary(dest, src, op, x, d0, d.off)
    modifies dest.arr
    ensures d'.arr == d.arr && d'.off == d.off + VecSize(arch, t)
    ensures s'.arr == s.arr && s'.off == s.off + VecSize(arch, t)
    ensures Fits(d', rest - VecSize(arch, t), t) && Fits(s', rest - VecSize(arch, t), t)
    ensures load == Aligned ==> AlignedAt(s'.addr, arch)
    ensures store == Aligned ==> AlignedAt(d'.addr, arch)
    ensures Unread(src.arr, s'.off, x) && WrittenUnary(dest, src, op, x, d0, d'.off)
  {
    VecSizeFacts(arch, t);
    UnaryWrite(arch, t, dest, src, d, s, x, d0, op, load, store);
    d' := CursorStep(arch, t, d, d, 0, rest, store);
    s' := CursorStep(arch, t, s, s, 0, rest, load);
  }

  /**
   * The main loop of `unaryOp`: `numVecOps` register-wide steps over at most `rest`
   * values. Returns the advanced pointers.
   */
  method UnaryVecLoop(arch: Arch, t: SampleType, dest: Ptr, src: Ptr, numVecOps: nat, ghost rest: nat,
                      op: real -> real, load: Access, store: Access) returns (d: Ptr, s: Ptr)
    requires Chunks(numVecOps, VecSize(arch, t)) <= rest
    requires Fits(dest, rest, t) && Fits(src, rest, t) && NoPartialOverlap(dest, src)
    requires load == Aligned ==> AlignedAt(src.addr, arch)
    requires store == Aligned ==> AlignedAt(dest.addr, arch)
    modifies dest.arr
    ensures d.arr == dest.arr && d.off == dest.off + Chunks(numVecOps, VecSize(arch, t))
    ensures s.arr == src.arr && s.off == src.off + Chunks(numVecOps, VecSize(arch, t))
    ensures Fits(d, rest - Chunks(numVecOps, VecSize(arch, t)), t)
    ensures Fits(s, rest - Chunks(numVecOps, VecSize(arch, t)), t)
    ensures Unread(src.arr, s.off, old(src.arr[..]))
    ensures WrittenUnary(dest, src, op, old(src.arr[..]), old(dest.arr[..]), d.off)
  {
    ghost var x, d0 := src.arr[..], dest.arr[..];
    var count := numVecOps;
    d, s := dest, src;
    ghost var done: nat := 0;
    while count > 0
      invariant Counted(done, count, VecSize(arch, t), Chunks(numVecOps, VecSize(arch, t)))
      invariant Fits(d, rest - done, t) && Fits(s, rest - done, t)
      invariant d.arr == dest.arr && d.off == dest.off + done
      invariant s.arr == src.arr && s.off == src.off + done
      invariant load == Aligned ==> AlignedAt(s.addr, arch)
      invariant store == Aligned ==> AlignedAt(d.addr, arch)
      invariant Unread(src.arr, s.off, x) && WrittenUnary(dest, src, op, x, d0, d.off)
    {
      CountDown(done, count, VecSize(arch, t), Chunks(numVecOps, VecSize(arch, t)));
      d, s := UnaryChunk(arch, t, dest, src, d, s, rest - done, x, d0, op, load, store);
      count := count - 1;
      done := done + VecSize(arch, t);
    }
  }

  /**
   * `unaryOp` with a chosen load and store: a scalar loop when fewer than two full
   * registers fit, otherwise `n / VecSize` register-wide steps and a scalar tail of
   * `n % VecSize` values. Every path writes `op (src[i])` to `dest[i]` for `i < n`
   * and nothing else, and issues aligned accesses only at aligned addresses.
   */
  method UnaryOpWith(arch: Arch, t: SampleType, dest: Ptr, src: Ptr, n: nat, op: real -> real,
                     load: Access, store: Access)
    requires Fits(dest, n, t) && Fits(src, n, t) && NoPartialOverlap(dest, src)
    requires load == Aligned ==> AlignedAt(src.addr, arch)
    requires store == Aligned ==> AlignedAt(dest.addr, arch)
    modifies dest.arr
    ensures forall j :: 0 <= j < dest.arr.Length ==>
      dest.arr[j] == if dest.off <= j < dest.off + n then ApplyUnary(op, old(src.arr[j - dest.off + src.off])) else old(dest.arr[j])
  {
    var vecSize := VecSize(arch, t);
    var numVecOps := n / vecSize;
    if numVecOps < 2 {
      UnaryOpFallback(dest, src, n, op);
      return;
    }
    ChunksOfQuotient(n, vecSize);
    UnaryVecPath(arch, t, dest, src, n, numVecOps, op, load, store);
  }

  /** The vector path of `unaryOp`: the main loop, then the scalar tail of `n % VecSize` values. */
  method UnaryVecPath(arch: Arch, t: SampleType, dest: Ptr, src: Ptr, n: nat, numVecOps: nat, op: real -> real,
                      load: Access, store: Access)
    requires numVecOps == n / VecSize(arch, t) && Chunks(numVecOps, VecSize(arch, t)) == n - n % VecSize(arch, t)
    requires Fits(dest, n, t) && Fits(src, n, t) && NoPartialOverlap(dest, src)
    requires load == Aligned ==> AlignedAt(src.addr, arch)
    requires store == Aligned ==> AlignedAt(dest.addr, arch)
    modifies dest.arr
    ensures forall j :: 0 <= j < dest.arr.Length ==>
      dest.arr[j] == if dest.off <= j < dest.off + n then ApplyUnary(op, old(src.arr[j - dest.off + src.off])) else old(dest.arr[j])
  {
    var d, s := UnaryVecLoop(arch, t, dest, src, numVecOps, n, op, load, store);
    var leftoverValues := n % VecSize(arch, t);
    if leftoverValues > 0 {
      UnaryTail(dest, src, d, s, leftoverValues, old(src.arr[..]), old(dest.arr[..]), op);
    }
  }

  /** The scalar tail of `unaryOp` in terms of the values the source held when the main loop began. */
  method UnaryTail(dest: Ptr, src: Ptr, d: Ptr, s: Ptr, leftoverValues: nat,
                   ghost x: seq<real>, ghost d0: seq<real>, op: real -> real)
    requires d.off + leftoverValues <= d.arr.Length && s.off + leftoverValues <= s.arr.Length
    requires d.arr == dest.arr && s.arr == src.arr && d.off - dest.off == s.off - src.off
    requires NoPartialOverlap(dest, src)
    requires Unread(src.arr, s.off, x) && WrittenUnary(dest, src, op, x, d0, d.off)
    modifies dest.arr
    ensures WrittenUnary(dest, src, op, x, d0, d.off + leftoverValues)
  {
    UnaryOpFallback(d, s, leftoverValues, op);
  }

  /** `unaryOp` selecting aligned or unaligned access for each pointer from its address. */
  method UnaryOp(arch: Arch, t: SampleType, dest: Ptr, src: Ptr, n: nat, op: real -> real)
    requires Fits(dest, n, t) && Fits(src, n, t) && NoPartialOverlap(dest, src)
    modifies dest.arr
    ensures forall j :: 0 <= j < dest.arr.Length ==>
      dest.arr[j] == if dest.off <= j < dest.off + n then ApplyUnary(op, old(src.arr[j - dest.off + src.off])) else old(dest.arr[j])
  {
    var r := RegisterSize(arch);
    AlignedAtIff(dest.addr, arch);
    AlignedAtIff(src.addr, arch);
    if IsAligned(dest.addr, r) {
      if IsAligned(src.addr, r) {
        UnaryOpWith(arch, t, dest, src, n, op, Aligned, Aligned);
      } else {
        UnaryOpWith(arch, t, dest, src, n, op, Unaligned, Aligned);
      }
    } else {
      if IsAligned(src.addr, r) {
        UnaryOpWith(arch, t, dest, src, n, op, Aligned, Unaligned);
      } else {
        UnaryOpWith(arch, t, dest, src, n, op, Unaligned, Unaligned);
      }
    }
  }

  // ---------------------------------------------------------------------------
  // binaryOp

  /** `binaryOpFallback`: a scalar loop writing `op (src1[i], src2[i])` to `dest[i]`. */
  method BinaryOpFallback(dest: Ptr, src1: Ptr, src2: Ptr, n: nat, op: (real, real) -> real)
    requires dest.off + n <= dest.arr.Length && src1.off + n <= src1.arr.Length && src2.off + n <= src2.arr.Length
    requires NoPartialOverlap(dest, src1) && NoPartialOverlap(dest, src2)
    modifies dest.arr
    ensures forall j {:trigger dest.arr[j]} :: 0 <= j < dest.arr.Length ==>
      dest.arr[j] == if dest.off <= j < dest.off + n
        then ApplyBinary(op, old(src1.arr[j - dest.off + src1.off]), old(src2.arr[j - dest.off + src2.off]))
        else old(dest.arr[j])
  {
    for i := 0 to n
      invariant forall j {:trigger dest.arr[j]} :: 0 <= j < dest.arr.Length ==>
        dest.arr[j] == if dest.off <= j < dest.off + i
          then ApplyBinary(op, old(src1.arr[j - dest.off + src1.off]), old(src2.arr[j - dest.off + src2.off]))
          else old(dest.arr[j])
    {
      dest.arr[dest.off + i] := op(src1.arr[src1.off + i], src2.arr[src2.off + i]);
    }
  }

  /** One register-wide step of `binaryOp`: `storeOp (dest, vecOp (loadOp1 (src1), loadOp2 (src2)))`. */
  method BinaryStep(arch: Arch, t: SampleType, d: Ptr, s1: Ptr, s2: Ptr, op: (real, real) -> real,
                    load1: Access, load2: Access, store: Access)
    requires d.off + VecSize(arch, t) <= d.arr.Length
    requires s1.off + VecSize(arch, t) <= s1.arr.Length && s2.off + VecSize(arch, t) <= s2.arr.Length
    requires NoPartialOverlap(d, s1) && NoPartialOverlap(d, s2)
    requires load1 == Aligned ==> AlignedAt(s1.addr, arch)
    requires load2 == Aligned ==> AlignedAt(s2.addr, arch)
    requires store == Aligned ==> AlignedAt(d.addr, arch)
    modifies d.arr
    ensures forall j {:trigger d.arr[j]} :: 0 <= j < d.arr.Length ==>
      d.arr[j] == if d.off <= j < d.off + VecSize(arch, t)
        then ApplyBinary(op, old(s1.arr[j - d.off + s1.off]), old(s2.arr[j - d.off + s2.off]))
        else old(d.arr[j])
  {
    Store(d, arch, t, store, LiftBinary(op, Load(s1, arch, t, load1), Load(s2, arch, t, load2)));
  }

  /**
   * The register-wide step of `binaryOp` in terms of the values the sources held
   * when the loop began: the step reads only values not yet overwritten, so the
   * written prefix grows by one register and the unread parts shrink by one.
   */
  method BinaryWrite(arch: Arch, t: SampleType, dest: Ptr, src1: Ptr, src2: Ptr, d: Ptr, s1: Ptr, s2: Ptr,
                     ghost x1: seq<real>, ghost x2: seq<real>, ghost d0: seq<real>,
                     op: (real, real) -> real, load1: Access, load2: Access, store: Access)
    requires d.off + VecSize(arch, t) <= d.arr.Length
    requires s1.off + VecSize(arch, t) <= s1.arr.Length && s2.off + VecSize(arch, t) <= s2.arr.Length
    requires d.arr == dest.arr && s1.arr == src1.arr && s2.arr == src2.arr
    requires d.off - dest.off == s1.off - src1.off == s2.off - src2.off
    requires NoPartialOverlap(dest, src1) && NoPartialOverlap(dest, src2)
    requires load1 == Aligned ==> AlignedAt(s1.addr, arch)
    requires load2 == Aligned ==> AlignedAt(s2.addr, arch)
    requires store == Aligned ==> AlignedAt(d.addr, arch)
    requires Unread(src1.arr, s1.off, x1) && Unread(src2.arr, s2.off, x2) && WrittenBinary(dest, src1, src2, op, x1, x2, d0, d.off)
    modifies dest.arr
    ensures Unread(src1.arr, s1.off + VecSize(arch, t), x1) && Unread(src2.arr, s2.off + VecSize(arch, t), x2)
    ensures WrittenBinary(dest, src1, src2, op, x1, x2, d0, d.off + VecSize(arch, t))
  {
    BinaryStep(arch, t, d, s1, s2, op, load1, load2, store);
  }

  /**
   * One iteration of the main loop of `binaryOp`: a register-wide step followed by
   * advancing the three pointers past it, which keeps them aligned. The step reads
   * only values not yet overwritten, so the written prefix grows by one register.
   */
  method BinaryChunk(arch: Arch, t: SampleType, dest: Ptr, src1: Ptr, src2: Ptr, d: Ptr, s1: Ptr, s2: Ptr,
                     ghost rest: nat, ghost x1: seq<real>, ghost x2: seq<real>, ghost d0: seq<real>,
                     op: (real, real) -> real, load1: Access, load2: Access, store: Access)
    returns (d': Ptr, s1': Ptr, s2': Ptr)
    requires rest >= VecSize(arch, t)
    requires Fits(d, rest, t) && Fits(s1, rest, t) && Fits(s2, rest, t)
    requires d.arr == dest.arr && s1.arr == src1.arr && s2.arr == src2.arr
    requires d.off - dest.off == s1.off - src1.off == s2.off - src2.off
    requires NoPartialOverlap(dest, src1) && NoPartialOverlap(dest, src2)
    requires load1 == Aligned ==> AlignedAt(s1.addr, arch)
    requires load2 == Aligned ==> AlignedAt(s2.addr, arch)
    requires store == Aligned ==> AlignedAt(d.addr, arch)
    requires Unread(src1.arr, s1.off, x1) && Unread(src2.arr, s2.off, x2) && WrittenBinary(dest, src1, src2, op, x1, x2, d0, d.off)
    modifies dest.arr
    ensures d'.arr == d.arr && d'.off == d.off + VecSize(arch, t)
    ensures s1'.arr == s1.arr && s1'.off == s1.off + VecSize(arch, t)
    ensures s2'.arr == s2.arr && s2'.off == s2.off + VecSize(arch, t)
    ensures Fits(d', rest - VecSize(arch, t), t) && Fits(s1', rest - VecSize(arch, t), t)
    ensures Fits(s2', rest - VecSize(arch, t), t)
    ensures load1 == Aligned ==> AlignedAt(s1'.addr, arch)
    ensures load2 == Aligned ==> AlignedAt(s2'.addr, arch)
    ensures store == Aligned ==> AlignedAt(d'.addr, arch)
    ensures Unread(src1.arr, s1'.off, x1) && Unread(src2.arr, s2'.off, x2) && WrittenBinary(dest, src1, src2, op, x1, x2, d0, d'.off)
  {
    VecSizeFacts(arch, t);
    BinaryWrite(arch, t, dest, src1, src2, d, s1, s2, x1, x2, d0, op, load1, load2, store);
    d' := CursorStep(arch, t, d, d, 0, rest, store);
    s1' := CursorStep(arch, t, s1, s1, 0, rest, load1);
    s2' := CursorStep(arch, t, s2, s2, 0, rest, load2);
  }

  /**
   * The main loop of `binaryOp`: `numVecOps` register-wide steps over at most `rest`
   * values. Returns the advanced pointers.
   */
  method BinaryVecLoop(arch: Arch, t: SampleType, dest: Ptr, src1: Ptr, src2: Ptr, numVecOps: nat, ghost rest: nat,
                       op: (real, real) -> real, load1: Access, load2: Access, store: Access)
    returns (d: Ptr, s1: Ptr, s2: Ptr)
    requires Chunks(numVecOps, VecSize(arch, t)) <= rest
    requires Fits(dest, rest, t) && Fits(src1, rest, t) && Fits(src2, rest, t)
    requires NoPartialOverlap(dest, src1) && NoPartialOverlap(dest, src2)
    requires load1 == Aligned ==> AlignedAt(src1.addr, arch)
    requires load2 == Aligned ==> AlignedAt(src2.addr, arch)
    requires store == Aligned ==> AlignedAt(dest.addr, arch)
    modifies dest.arr
    ensures d.arr == dest.arr && d.off == dest.off + Chunks(numVecOps, VecSize(arch, t))
    ensures s1.arr == src1.arr && s1.off == src1.off + Chunks(numVecOps, VecSize(arch, t))
    ensures s2.arr == src2.arr && s2.off == src2.off + Chunks(numVecOps, VecSize(arch, t))
    ensures Fits(d, rest - Chunks(numVecOps, VecSize(arch, t)), t)
    ensures Fits(s1, rest - Chunks(numVecOps, VecSize(arch, t)), t)
    ensures Fits(s2, rest - Chunks(numVecOps, VecSize(arch, t)), t)
    ensures Unread(src1.arr, s1.off, old(src1.arr[..])) && Unread(src2.arr, s2.off, old(src2.arr[..]))
    ensures WrittenBinary(dest, src1, src2, op, old(src1.arr[..]), old(src2.arr[..]), old(dest.arr[..]), d.off)
  {
    ghost var x1, x2, d0 := src1.arr[..], src2.arr[..], dest.arr[..];
    var count := numVecOps;
    d, s1, s2 := dest, src1, src2;
    ghost var done: nat := 0;
    while count > 0
      invariant Counted(done, count, VecSize(arch, t), Chunks(numVecOps, VecSize(arch, t)))
      invariant Fits(d, rest - done, t) && Fits(s1, rest - done, t) && Fits(s2, rest - done, t)
      invariant d.arr == dest.arr && d.off == dest.off + done
      invariant s1.arr == src1.arr && s1.off == src1.off + done
      invariant s2.arr == src2.arr && s2.off == src2.off + done
      invariant load1 == Aligned ==> AlignedAt(s1.addr, arch)
      invariant load2 == Aligned ==> AlignedAt(s2.addr, arch)
      invariant store == Aligned ==> AlignedAt(d.addr, arch)
      invariant Unread(src1.arr, s1.off, x1) && Unread(src2.arr, s2.off, x2) && WrittenBinary(dest, src1, src2, op, x1, x2, d0, d.off)
    {
      CountDown(done, count, VecSize(arch, t), Chunks(numVecOps, VecSize(arch, t)));
      d, s1, s2 := BinaryChunk(arch, t, dest, src1, src2, d, s1, s2, rest - done, x1, x2, d0, op, load1, load2, store);
      count := count - 1;
      done := done + VecSize(arch, t);
    }
  }

  /**
   * `binaryOp` with chosen loads and store: `n / VecSize` register-wide steps and a
   * scalar tail of `n % VecSize` values, or a scalar loop when fewer than two full
   * registers fit. Every path writes `op (src1[i], src2[i])` to `dest[i]` for
   * `i < n` and nothing else.
   */
  method BinaryOpWith(arch: Arch, t: SampleType, dest: Ptr, src1: Ptr, src2: Ptr, n: nat, op: (real, real) -> real,
                      load1: Access, load2: Access, store: Access)
    requires Fits(dest, n, t) && Fits(src1, n, t) && Fits(src2, n, t)
    requires NoPartialOverlap(dest, src1) && NoPartialOverlap(dest, src2)
    requires load1 == Aligned ==> AlignedAt(src1.addr, arch)
    requires load2 == Aligned ==> AlignedAt(src2.addr, arch)
    requires store == Aligned ==> AlignedAt(dest.addr, arch)
    modifies dest.arr
    ensures forall j {:trigger dest.arr[j]} :: 0 <= j < dest.arr.Length ==>
      dest.arr[j] == if dest.off <= j < dest.off + n
        then ApplyBinary(op, old(src1.arr[j - dest.off + src1.off]), old(src2.arr[j - dest.off + src2.off]))
        else old(dest.arr[j])
  {
    var vecSize := VecSize(arch, t);
    var numVecOps := n / vecSize;
    if numVecOps < 2 {
      BinaryOpFallback(dest, src1, src2, n, op);
      return;
    }
    ChunksOfQuotient(n, vecSize);
    BinaryVecPath(arch, t, dest, src1, src2, n, numVecOps, op, load1, load2, store);
  }

  /** The vector path of `binaryOp`: the main loop, then the scalar tail of `n % VecSize` values. */
  method BinaryVecPath(arch: Arch, t: SampleType, dest: Ptr, src1: Ptr, src2: Ptr, n: nat, numVecOps: nat,
                       op: (real, real) -> real, load1: Access, load2: Access, store: Access)
    requires numVecOps == n / VecSize(arch, t) && Chunks(numVecOps, VecSize(arch, t)) == n - n % VecSize(arch, t)
    requires Fits(dest, n, t) && Fits(src1, n, t) && Fits(src2, n, t)
    requires NoPartialOverlap(dest, src1) && NoPartialOverlap(dest, src2)
    requires load1 == Aligned ==> AlignedAt(src1.addr, arch)
    requires load2 == Aligned ==> AlignedAt(src2.addr, arch)
    requires store == Aligned ==> AlignedAt(dest.addr, arch)
    modifies dest.arr
    ensures forall j {:trigger dest.arr[j]} :: 0 <= j < dest.arr.Length ==>
      dest.arr[j] == if dest.off <= j < dest.off + n
        then ApplyBinary(op, old(src1.arr[j - dest.off + src1.off]), old(src2.arr[j - dest.off + src2.off]))
        else old(dest.arr[j])
  {
    var d, s1, s2 := BinaryVecLoop(arch, t, dest, src1, src2, numVecOps, n, op, load1, load2, store);
    var leftoverValues := n % VecSize(arch, t);
    if leftoverValues > 0 {
      BinaryTail(dest, src1, src2, d, s1, s2, leftoverValues, old(src1.arr[..]), old(src2.arr[..]), old(dest.arr[..]), op);
    }
  }

  /**
   * The scalar tail of `binaryOp` in terms of the values the sources held when the
   * main loop began: it reads only values not yet overwritten.
   */
  method BinaryTail(dest: Ptr, src1: Ptr, src2: Ptr, d: Ptr, s1: Ptr, s2: Ptr, leftoverValues: nat,
                    ghost x1: seq<real>, ghost x2: seq<real>, ghost d0: seq<real>, op: (real, real) -> real)
    requires d.off + leftoverValues <= d.arr.Length
    requires s1.off + leftoverValues <= s1.arr.Length && s2.off + leftoverValues <= s2.arr.Length
    requires d.arr == dest.arr && s1.arr == src1.arr && s2.arr == src2.arr
    requires d.off - dest.off == s1.off - src1.off == s2.off - src2.off
    requires NoPartialOverlap(dest, src1) && NoPartialOverlap(dest, src2)
    requires Unread(src1.arr, s1.off, x1) && Unread(src2.arr, s2.off, x2) && WrittenBinary(dest, src1, src2, op, x1, x2, d0, d.off)
    modifies dest.arr
    ensures WrittenBinary(dest, src1, src2, op, x1, x2, d0, d.off + leftoverValues)
  {
    BinaryOpFallback(d, s1, s2, leftoverValues, op);
  }

  /** `binaryOp` selecting aligned or unaligned access for each of the three pointers. */
  method BinaryOp(arch: Arch, t: SampleType, dest: Ptr, src1: Ptr, src2: Ptr, n: nat, op: (real, real) -> real)
    requires Fits(dest, n, t) && Fits(src1, n, t) && Fits(src2, n, t)
    requires NoPartialOverlap(dest, src1) && NoPartialOverlap(dest, src2)
    modifies dest.arr
    ensures forall j {:trigger dest.arr[j]} :: 0 <= j < dest.arr.Length ==>
      dest.arr[j] == if dest.off <= j < dest.off + n
        then ApplyBinary(op, old(src1.arr[j - dest.off + src1.off]), old(src2.arr[j - dest.off + src2.off]))
        else old(dest.arr[j])
  {
    var r := RegisterSize(arch);
    AlignedAtIff(dest.addr, arch);
    AlignedAtIff(src1.addr, arch);
    AlignedAtIff(src2.addr, arch);
    if IsAligned(dest.addr, r) {
      if IsAligned(src1.addr, r) {
        if IsAligned(src2.addr, r) {
          BinaryOpWith(arch, t, dest, src1, src2, n, op, Aligned, Aligned, Aligned);
        } else {
          BinaryOpWith(arch, t, dest, src1, src2, n, op, Aligned, Unaligned, Aligned);
        }
      } else {
        if IsAligned(src2.addr, r) {
          BinaryOpWith(arch, t, dest, src1, src2, n, op, Unaligned, Aligned, Aligned);
        } else {
          BinaryOpWith(arch, t, dest, src1, src2, n, op, Unaligned, Unaligned, Aligned);
        }
      }
    } else {
      if IsAligned(src1.addr, r) {
        if IsAligned(src2.addr, r) {
          BinaryOpWith(arch, t, dest, src1, src2, n, op, Aligned, Aligned, Unaligned);
        } else {
          BinaryOpWith(arch, t, dest, src1, src2, n, op, Aligned, Unaligned, Unaligned);
        }
      } else {
        if IsAligned(src2.addr, r) {
          BinaryOpWith(arch, t, dest, src1, src2, n, op, Unaligned, Aligned, Unaligned);
        } else {
          BinaryOpWith(arch, t, dest, src1, src2, n, op, Unaligned, Unaligned, Unaligned);
        }
      }
    }
  }

  // ---------------------------------------------------------------------------
  // reduce, one source

  /** `reduceFallback`: a scalar loop folding the samples into `init`. */
  method ReduceFallback(src: Ptr, n: nat, init: real, k: Reduction) returns (r: real)
    requires src.off + n <= src.arr.Length
    ensures r == Fold(k, init, Values(src, n))
  {
    r := init;
    for i := 0 to n
      invariant r == Fold(k, init, Values(src, i))
    {
      assert Values(src, i + 1)[..i] == Values(src, i);
      r := Step(k, r, src.arr[src.off + i]);
    }
  }

  /** An address aligned to the register size is aligned to the element size. */
  lemma AlignedToElement(q: int, arch: Arch, t: SampleType)
    requires AlignedAt(q, arch)
    ensures q % ElementBytes(t) == 0
  {
    var r := RegisterSize(arch);
    DivModUnique(q, r, q / r, 0);
    var m := q / r;
    match (arch, t)
    case (Avx, Float) => DivModUnique(q, 4, 8 * m, 0);
    case (Avx, Double) => DivModUnique(q, 8, 4 * m, 0);
    case (_, Float) => DivModUnique(q, 4, 4 * m, 0);
    case (_, Double) => DivModUnique(q, 8, 2 * m, 0);
  }

  /**
   * Two element-aligned addresses less than one register apart are a whole number
   * of elements apart, fewer than one register's worth.
   */
  lemma ElementGap(a: int, q: int, arch: Arch, t: SampleType)
    requires a % ElementBytes(t) == 0 && q % ElementBytes(t) == 0 && a <= q < a + RegisterSize(arch)
    ensures WholeElementsApart(a, q, arch, t)
  {
    var b := ElementBytes(t);
    DivModUnique(a, b, a / b, 0);
    DivModUnique(q, b, q / b, 0);
    var e := q / b - a / b;
    DivModUnique(q - a, b, e, 0);
    VecSizeFacts(arch, t);
    assert Span(e, t) == e * b;
    assert VecSize(arch, t) * b == RegisterSize(arch);
    if e >= VecSize(arch, t) {
      MulAtLeast(e - VecSize(arch, t), b);
    }
  }

  /** `q` lies a whole number of elements after `a`, fewer than one register's worth. */
  predicate WholeElementsApart(a: int, q: int, arch: Arch, t: SampleType)
  {
    && a <= q
    && Span((q - a) / ElementBytes(t), t) == q - a
    && (q - a) / ElementBytes(t) < VecSize(arch, t)
  }

  /**
   * The address `getNextAlignedPtr` returns for a pointer with at least two
   * registers' worth of elements lies a whole number of elements ahead, fewer than
   * one register's worth, and is aligned.
   */
  lemma PeelFacts(arch: Arch, t: SampleType, src: Ptr, n: nat)
    requires Fits(src, n, t) && n >= 2 * VecSize(arch, t)
    ensures src.addr + RegisterSize(arch) - 1 < AddressSpace
    ensures var q := GetNextAlignedPtr(src.addr, RegisterSize(arch));
      WholeElementsApart(src.addr, q, arch, t) && AlignedAt(q, arch)
  {
    VecSizeFacts(arch, t);
    var r := RegisterSize(arch);
    assert Span(n, t) >= Span(2 * VecSize(arch, t), t) == 2 * r;
    NextAlignedPtrIsAligned(src.addr, r);
    var q := GetNextAlignedPtr(src.addr, r);
    AlignedAtIff(q, arch);
    AlignedToElement(q, arch, t);
    ElementGap(src.addr, q, arch, t);
  }

  /**
   * The peel of `reduce` for an unaligned pointer with two registers' worth of
   * elements: the number of elements before the next aligned address, and the
   * pointer there.
   */
  method PeelTarget(arch: Arch, t: SampleType, src: Ptr, n: nat) returns (diff: nat, next: Ptr)
    requires Fits(src, n, t) && n >= 2 * VecSize(arch, t)
    ensures diff < VecSize(arch, t) && diff <= n
    ensures next.arr == src.arr && next.off == src.off + diff
    ensures Fits(next, n - diff, t) && AlignedAt(next.addr, arch)
  {
    PeelFacts(arch, t, src, n);
    var nextAlignedPtr := GetNextAlignedPtr(src.addr, RegisterSize(arch));
    diff := (nextAlignedPtr - src.addr) / ElementBytes(t);
    PeelFits(arch, t, src, n, diff, nextAlignedPtr);
    next := Advance(src, diff, t);
  }

  /** Advancing by the peel count lands on the aligned address with `n - diff` elements left. */
  lemma PeelFits(arch: Arch, t: SampleType, src: Ptr, n: nat, diff: nat, q: Address)
    requires Fits(src, n, t) && diff < VecSize(arch, t) && n >= 2 * VecSize(arch, t)
    requires Span(diff, t) == q - src.addr && AlignedAt(q, arch)
    ensures diff <= n && src.addr + Span(diff, t) < AddressSpace
    ensures Fits(Advance(src, diff, t), n - diff, t) && AlignedAt(Advance(src, diff, t).addr, arch)
  {
    AdvanceFits(src, diff, n - diff, t);
  }

  /** The first `i + j` samples are the first `i` followed by the `j` after them. */
  lemma ValuesSplit(p: Ptr, i: nat, j: nat)
    requires p.off + i + j <= p.arr.Length
    ensures Values(p, i + j) == Values(p, i) + p.arr[p.off + i..p.off + i + j]
  {
  }

  /**
   * Folding the `n` samples at `p` folds the first `i`, then the `m` at `q`, the
   * pointer `i` elements further on.
   */
  lemma FoldSplit(k: Reduction, init: real, p: Ptr, q: Ptr, i: nat, m: nat, n: nat)
    requires n == i + m && p.off + n <= p.arr.Length && q.arr == p.arr && q.off == p.off + i
    ensures Fold(k, init, Values(p, n)) == Fold(k, Fold(k, init, Values(p, i)), Values(q, m))
  {
    assert Values(p, n) == Values(p, i) + Values(q, m) by {
      ValuesSplit(p, i, m);
    }
    FoldAppend(k, init, Values(p, i), Values(q, m));
  }

  /** `FoldSplit` for the two-source fold. */
  lemma Fold2Split(f: (real, real) -> real, init: real, p1: Ptr, p2: Ptr, q1: Ptr, q2: Ptr, i: nat, m: nat, n: nat)
    requires n == i + m && p1.off + n <= p1.arr.Length && q1.arr == p1.arr && q1.off == p1.off + i
    requires p2.off + n <= p2.arr.Length && q2.arr == p2.arr && q2.off == p2.off + i
    ensures Fold2(f, init, Values(p1, n), Values(p2, n))
         == Fold2(f, Fold2(f, init, Values(p1, i), Values(p2, i)), Values(q1, m), Values(q2, m))
  {
    assert Values(p1, n) == Values(p1, i) + Values(q1, m) by {
      ValuesSplit(p1, i, m);
    }
    assert Values(p2, n) == Values(p2, i) + Values(q2, m) by {
      ValuesSplit(p2, i, m);
    }
    Fold2Append(f, init, Values(p1, i), Values(p2, i), Values(q1, m), Values(q2, m));
  }

  /**
   * The state of the one-source `vecLoop` after `done` of `rest` elements: the
   * cursor `done` elements in and still aligned, and lanes standing for the scalar
   * fold so far.
   */
  ghost predicate Progress(arch: Arch, t: SampleType, k: Reduction, src: Ptr, s: Ptr, done: nat, rest: nat,
                           lanes: seq<real>, init: real)
    reads src.arr
  {
    && Cursor(s, src, done, rest, arch, t, Aligned)
    && |lanes| == VecSize(arch, t) && Represents(k, lanes, init, Values(src, done))
  }

  /**
   * One iteration of the main loop of the one-source `reduce`: an aligned load at
   * `s`, folded lane by lane into the accumulators, then `s` advanced past it.
   */
  method ReduceChunk(arch: Arch, t: SampleType, k: Reduction, src: Ptr, s: Ptr, ghost done: nat, ghost count: nat,
                     ghost total: nat, ghost rest: nat, lanes: seq<real>, ghost init: real)
    returns (lanes': seq<real>, s': Ptr)
    requires count > 0 && Counted(done, count, VecSize(arch, t), total) && total <= rest
    requires Progress(arch, t, k, src, s, done, rest, lanes, init)
    ensures Counted(done + VecSize(arch, t), count - 1, VecSize(arch, t), total)
    ensures Progress(arch, t, k, src, s', done + VecSize(arch, t), rest, lanes', init)
  {
    CountDown(done, count, VecSize(arch, t), total);
    var vecSize := VecSize(arch, t);
    var batch := Load(s, arch, t, Aligned);
    FoldChunk(k, init, src, done, vecSize, lanes, batch);
    lanes' := LaneStep(k, lanes, batch);
    s' := CursorStep(arch, t, src, s, done, rest, Aligned);
  }

  /** Folding the next `w` samples lane by lane extends the represented prefix by them. */
  lemma FoldChunk(k: Reduction, init: real, src: Ptr, done: nat, w: nat, lanes: seq<real>, batch: seq<real>)
    requires src.off + done + w <= src.arr.Length
    requires batch == src.arr[src.off + done..src.off + done + w]
    requires |lanes| == w && Represents(k, lanes, init, Values(src, done))
    ensures Represents(k, LaneStep(k, lanes, batch), init, Values(src, done + w))
  {
    assert Values(src, done + w) == Values(src, done) + batch by {
      ValuesSplit(src, done, w);
    }
    RepresentsStep(k, lanes, init, Values(src, done), batch);
  }

  /**
   * The main loop of the one-source `reduce` from an aligned pointer: the seed
   * batch (`init` in lane 0, zero elsewhere), then `numVecOps` aligned loads each
   * folded lane by lane into the accumulators.
   */
  method ReduceVecLoop(arch: Arch, t: SampleType, k: Reduction, src: Ptr, numVecOps: nat, ghost rest: nat,
                       init: real) returns (lanes: seq<real>, s: Ptr)
    requires Chunks(numVecOps, VecSize(arch, t)) <= rest
    requires Fits(src, rest, t) && AlignedAt(src.addr, arch)
    ensures s.arr == src.arr && s.off == src.off + Chunks(numVecOps, VecSize(arch, t))
    ensures Fits(s, rest - Chunks(numVecOps, VecSize(arch, t)), t)
    ensures |lanes| == VecSize(arch, t)
    ensures Represents(k, lanes, init, Values(src, Chunks(numVecOps, VecSize(arch, t))))
  {
    VecSizeFacts(arch, t);
    lanes := Seed(init, VecSize(arch, t));
    assert Progress(arch, t, k, src, src, 0, rest, lanes, init) by {
      RepresentsSeed(k, init, VecSize(arch, t));
      assert Values(src, 0) == [];
    }
    var count := numVecOps;
    s := src;
    ghost var done: nat := 0;
    ghost var w := VecSize(arch, t);
    while count > 0
      invariant Counted(done, count, w, Chunks(numVecOps, w))
      invariant Progress(arch, t, k, src, s, done, rest, lanes, init)
    {
      lanes, s := ReduceChunk(arch, t, k, src, s, done, count, Chunks(numVecOps, w), rest, lanes, init);
      count := count - 1;
      done := done + w;
    }
  }

  /**
   * The vector path of the one-source `reduce` from an aligned pointer: the vector
   * loop, the horizontal combination of the lanes (`vecReduceOp`), and a scalar fold
   * of the leftover values.
   */
  method ReduceAligned(arch: Arch, t: SampleType, k: Reduction, src: Ptr, n: nat, numVecOps: nat, init: real)
    returns (r: real)
    requires numVecOps == n / VecSize(arch, t) && numVecOps >= 2
    requires Chunks(numVecOps, VecSize(arch, t)) == n - n % VecSize(arch, t)
    requires Fits(src, n, t) && AlignedAt(src.addr, arch)
    ensures r == Fold(k, init, Values(src, n))
  {
    var lanes, s := ReduceVecLoop(arch, t, k, src, numVecOps, n, init);
    r := Horizontal(k, lanes);
    ghost var done := Chunks(numVecOps, VecSize(arch, t));
    assert Values(src, done) != [] by {
      assert done > 0 by {
        VecSizeFacts(arch, t);
      }
    }
    RepresentsResult(k, lanes, init, Values(src, done));
    var leftoverValues := n % VecSize(arch, t);
    if leftoverValues > 0 {
      ghost var vectorResult := r;
      r := ReduceFallback(s, leftoverValues, r, k);
      FoldSplit(k, init, src, s, done, leftoverValues, n);
    } else {
      assert Values(src, n) == Values(src, done);
    }
  }

  /**
   * The one-source `reduce`: a scalar fold when fewer than two registers fit; from a
   * pointer that is not aligned, a scalar fold up to the next aligned address and a
   * `reduce` of the rest from there; otherwise the vector loop, the horizontal
   * combination of the lanes, and a scalar fold of the leftover values. Every path
   * returns the scalar fold of all `n` samples.
   */
  method Reduce(arch: Arch, t: SampleType, k: Reduction, src: Ptr, n: nat, init: real) returns (r: real)
    requires Fits(src, n, t)
    ensures r == Fold(k, init, Values(src, n))
    decreases if AlignedAt(src.addr, arch) then 0 else 1
  {
    var vecSize := VecSize(arch, t);
    var numVecOps := n / vecSize;
    if numVecOps < 2 {
      r := ReduceFallback(src, n, init, k);
      return;
    }
    var reg := RegisterSize(arch);
    AlignedAtIff(src.addr, arch);
    if !IsAligned(src.addr, reg) {
      var diff, next := PeelTarget(arch, t, src, n);
      var initResult := ReduceFallback(src, diff, init, k);
      r := Reduce(arch, t, k, next, n - diff, initResult);
      FoldSplit(k, init, src, next, diff, n - diff, n);
      return;
    }
    ChunksOfQuotient(n, vecSize);
    r := ReduceAligned(arch, t, k, src, n, numVecOps, init);
  }

  // ---------------------------------------------------------------------------
  // reduce, two sources

  /** `reduceFallback` over two sources: a scalar loop folding `prev + f (a, b)` into `init`. */
  method ReduceFallback2(src1: Ptr, src2: Ptr, n: nat, init: real, f: (real, real) -> real) returns (r: real)
    requires src1.off + n <= src1.arr.Length && src2.off + n <= src2.arr.Length
    ensures r == Fold2(f, init, Values(src1, n), Values(src2, n))
  {
    r := init;
    for i := 0 to n
      invariant r == Fold2(f, init, Values(src1, i), Values(src2, i))
    {
      assert Values(src1, i + 1)[..i] == Values(src1, i);
      assert Values(src2, i + 1)[..i] == Values(src2, i);
      r := r + f(src1.arr[src1.off + i], src2.arr[src2.off + i]);
    }
  }

  /**
   * `s` is `src` advanced by `done` of the `rest` elements it points at, and is
   * aligned when it is read with aligned loads.
   */
  predicate Cursor(s: Ptr, src: Ptr, done: nat, rest: nat, arch: Arch, t: SampleType, load: Access)
  {
    && done <= rest
    && Fits(s, rest - done, t) && s.arr == src.arr && s.off == src.off + done
    && (load == Aligned ==> AlignedAt(s.addr, arch))
  }

  /** A cursor moved past one register's worth of elements. */
  method CursorStep(arch: Arch, t: SampleType, src: Ptr, s: Ptr, ghost done: nat, ghost rest: nat, load: Access)
    returns (s': Ptr)
    requires Cursor(s, src, done, rest, arch, t, load) && done + VecSize(arch, t) <= rest
    ensures Cursor(s', src, done + VecSize(arch, t), rest, arch, t, load)
  {
    VecSizeFacts(arch, t);
    AdvanceFits(s, VecSize(arch, t), rest - done - VecSize(arch, t), t);
    if load == Aligned {
      AlignedStep(s.addr, arch);
    }
    s' := Advance(s, VecSize(arch, t), t);
  }

  /**
   * The state of the two-source `vecLoop` after `done` of `rest` elements: both
   * cursors `done` elements in, and lanes summing to the scalar fold so far.
   */
  ghost predicate Progress2(arch: Arch, t: SampleType, f: (real, real) -> real, src1: Ptr, src2: Ptr, s1: Ptr, s2: Ptr,
                            done: nat, rest: nat, lanes: seq<real>, init: real, load1: Access, load2: Access)
    reads src1.arr, src2.arr
  {
    && Cursor(s1, src1, done, rest, arch, t, load1) && Cursor(s2, src2, done, rest, arch, t, load2)
    && |lanes| == VecSize(arch, t) && Sum(lanes) == Fold2(f, init, Values(src1, done), Values(src2, done))
  }

  /**
   * One iteration of the `vecLoop` of the two-source `reduce`: a load from each
   * source, `prev + f (a, b)` lane by lane, then both pointers advanced.
   */
  method Reduce2Chunk(arch: Arch, t: SampleType, f: (real, real) -> real, src1: Ptr, src2: Ptr, s1: Ptr, s2: Ptr,
                      ghost done: nat, ghost rest: nat, lanes: seq<real>, ghost init: real,
                      load1: Access, load2: Access)
    returns (lanes': seq<real>, s1': Ptr, s2': Ptr)
    requires done + VecSize(arch, t) <= rest
    requires Progress2(arch, t, f, src1, src2, s1, s2, done, rest, lanes, init, load1, load2)
    ensures Progress2(arch, t, f, src1, src2, s1', s2', done + VecSize(arch, t), rest, lanes', init, load1, load2)
  {
    lanes' := Reduce2Lanes(arch, t, f, src1, src2, s1, s2, done, rest, lanes, init, load1, load2);
    s1' := CursorStep(arch, t, src1, s1, done, rest, load1);
    s2' := CursorStep(arch, t, src2, s2, done, rest, load2);
  }

  /** The lane update of one `vecLoop` step of the two-source `reduce`: a load from each source, `prev + f (a, b)`. */
  method Reduce2Lanes(arch: Arch, t: SampleType, f: (real, real) -> real, src1: Ptr, src2: Ptr, s1: Ptr, s2: Ptr,
                      ghost done: nat, ghost rest: nat, lanes: seq<real>, ghost init: real,
                      load1: Access, load2: Access)
    returns (lanes': seq<real>)
    requires done + VecSize(arch, t) <= rest
    requires Progress2(arch, t, f, src1, src2, s1, s2, done, rest, lanes, init, load1, load2)
    ensures |lanes'| == VecSize(arch, t)
    ensures Sum(lanes') == Fold2(f, init, Values(src1, done + VecSize(arch, t)), Values(src2, done + VecSize(arch, t)))
  {
    var b1, b2 := Load(s1, arch, t, load1), Load(s2, arch, t, load2);
    Fold2Chunk(f, init, src1, src2, done, VecSize(arch, t), lanes, b1, b2);
    lanes' := LaneStep2(f, lanes, b1, b2);
  }

  /** Adding `f` of the next `w` samples of each source lane by lane extends the fold by them. */
  lemma Fold2Chunk(f: (real, real) -> real, init: real, src1: Ptr, src2: Ptr, done: nat, w: nat,
                   lanes: seq<real>, b1: seq<real>, b2: seq<real>)
    requires src1.off + done + w <= src1.arr.Length && src2.off + done + w <= src2.arr.Length
    requires b1 == src1.arr[src1.off + done..src1.off + done + w]
    requires b2 == src2.arr[src2.off + done..src2.off + done + w]
    requires |lanes| == w && Sum(lanes) == Fold2(f, init, Values(src1, done), Values(src2, done))
    ensures Sum(LaneStep2(f, lanes, b1, b2)) == Fold2(f, init, Values(src1, done + w), Values(src2, done + w))
  {
    ValuesSplit(src1, done, w);
    ValuesSplit(src2, done, w);
    Represents2Step(f, lanes, init, Values(src1, done), Values(src2, done), b1, b2);
  }

  /**
   * The `vecLoop` of the two-source `reduce`: from the accumulators `seed`,
   * `numVecOps` steps each adding `f` of two loaded batches lane by lane. The lanes
   * then sum to the scalar fold from the seed's sum.
   */
  method Reduce2VecLoop(arch: Arch, t: SampleType, f: (real, real) -> real, src1: Ptr, src2: Ptr,
                        numVecOps: nat, ghost rest: nat, seed: seq<real>, ghost init: real,
                        load1: Access, load2: Access)
    returns (lanes: seq<real>, s1: Ptr, s2: Ptr)
    requires Chunks(numVecOps, VecSize(arch, t)) <= rest
    requires Cursor(src1, src1, 0, rest, arch, t, load1) && Cursor(src2, src2, 0, rest, arch, t, load2)
    requires |seed| == VecSize(arch, t) && Sum(seed) == init
    ensures Progress2(arch, t, f, src1, src2, s1, s2, Chunks(numVecOps, VecSize(arch, t)), rest, lanes, init, load1, load2)
  {
    lanes := seed;
    assert Progress2(arch, t, f, src1, src2, src1, src2, 0, rest, lanes, init, load1, load2) by {
      assert Values(src1, 0) == [] && Values(src2, 0) == [];
    }
    var count := numVecOps;
    s1, s2 := src1, src2;
    ghost var done: nat := 0;
    ghost var w := VecSize(arch, t);
    while count > 0
      invariant Counted(done, count, w, Chunks(numVecOps, w))
      invariant Progress2(arch, t, f, src1, src2, s1, s2, done, rest, lanes, init, load1, load2)
    {
      CountDown(done, count, w, Chunks(numVecOps, w));
      lanes, s1, s2 := Reduce2Chunk(arch, t, f, src1, src2, s1, s2, done, rest, lanes, init, load1, load2);
      count := count - 1;
      done := done + w;
    }
  }

  /**
   * The vector path of the two-source `reduce` from the accumulators `seed`: loads
   * chosen by the alignment of each source, the vector loop, the sum of the lanes,
   * and a scalar fold of the leftover values.
   */
  method Reduce2Vector(arch: Arch, t: SampleType, f: (real, real) -> real, src1: Ptr, src2: Ptr, n: nat,
                       numVecOps: nat, seed: seq<real>, ghost init: real) returns (r: real)
    requires numVecOps == n / VecSize(arch, t) && Chunks(numVecOps, VecSize(arch, t)) == n - n % VecSize(arch, t)
    requires Fits(src1, n, t) && Fits(src2, n, t)
    requires |seed| == VecSize(arch, t) && Sum(seed) == init
    ensures r == Fold2(f, init, Values(src1, n), Values(src2, n))
  {
    var reg := RegisterSize(arch);
    AlignedAtIff(src1.addr, arch);
    AlignedAtIff(src2.addr, arch);
    var load1 := if IsAligned(src1.addr, reg) then Aligned else Unaligned;
    var load2 := if IsAligned(src2.addr, reg) then Aligned else Unaligned;
    var lanes, s1, s2 := Reduce2VecLoop(arch, t, f, src1, src2, numVecOps, n, seed, init, load1, load2);
    r := Sum(lanes);
    ghost var done := Chunks(numVecOps, VecSize(arch, t));
    var leftoverValues := n % VecSize(arch, t);
    if leftoverValues > 0 {
      r := ReduceFallback2(s1, s2, leftoverValues, r, f);
      Fold2Split(f, init, src1, src2, s1, s2, done, leftoverValues, n);
    } else {
      assert Values(src1, n) == Values(src1, done) && Values(src2, n) == Values(src2, done);
    }
  }

  /**
   * The two-source `reduce` as written: the vector path starts from a zero batch,
   * so `init` is dropped whenever two or more registers fit.
   */
  method Reduce2AsWritten(arch: Arch, t: SampleType, f: (real, real) -> real, src1: Ptr, src2: Ptr, n: nat,
                          init: real) returns (r: real)
    requires Fits(src1, n, t) && Fits(src2, n, t)
    ensures r == if n / VecSize(arch, t) < 2 then Fold2(f, init, Values(src1, n), Values(src2, n))
                 else Fold2(f, 0.0, Values(src1, n), Values(src2, n))
  {
    var vecSize := VecSize(arch, t);
    var numVecOps := n / vecSize;
    if numVecOps < 2 {
      r := ReduceFallback2(src1, src2, n, init, f);
      return;
    }
    ChunksOfQuotient(n, vecSize);
    SumSeed(0.0, vecSize);
    r := Reduce2Vector(arch, t, f, src1, src2, n, numVecOps, Seed(0.0, vecSize), 0.0);
  }

  /** On the vector path the as-written two-source `reduce` misses exactly `init`. */
  lemma Reduce2AsWrittenDropsInit(f: (real, real) -> real, init: real, xs: seq<real>, ys: seq<real>)
    requires |xs| == |ys|
    ensures Fold2(f, 0.0, xs, ys) == Fold2(f, init, xs, ys) - init
  {
    Fold2Total(f, 0.0, xs, ys);
    Fold2Total(f, init, xs, ys);
  }

  /**
   * The two-source `reduce` with the vector path seeded like the one-source one
   * (`init` in lane 0): every path returns the scalar fold from `init`.
   */
  method Reduce2(arch: Arch, t: SampleType, f: (real, real) -> real, src1: Ptr, src2: Ptr, n: nat,
                 init: real) returns (r: real)
    requires Fits(src1, n, t) && Fits(src2, n, t)
    ensures r == Fold2(f, init, Values(src1, n), Values(src2, n))
  {
    var vecSize := VecSize(arch, t);
    var numVecOps := n / vecSize;
    if numVecOps < 2 {
      r := ReduceFallback2(src1, src2, n, init, f);
      return;
    }
    ChunksOfQuotient(n, vecSize);
    SumSeed(init, vecSize);
    r := Reduce2Vector(arch, t, f, src1, src2, n, numVecOps, Seed(init, vecSize), init);
  }
}
