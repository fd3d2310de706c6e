/**
 * Pointer-alignment helpers of the SIMD layer (chowdsp::SIMDUtils):
 * `isAligned`, `snapPointerToAlignment` and `getNextAlignedPtr`.
 *
 * Addresses are 64-bit `uintptr_t`/`size_t` values. Their arithmetic is written
 * out explicitly: `+` and `-` wrap modulo 2^64, `&` is bitwise AND and `~` is the
 * 64-bit complement. The lemmas relate the bitmask formulas of the source to
 * plain divisibility when the alignment is a power of two.
 */
module Alignment {

  /** Number of distinct 64-bit unsigned values. */
  const AddressSpace: nat := 0x1_0000_0000_0000_0000

  /** Width of an address in bits. */
  const AddressBits: nat := 64

  /** A 64-bit unsigned machine value (`uintptr_t`, `size_t`). */
  type Address = x: int | 0 <= x < AddressSpace

  function Pow2(k: nat): (r: nat)
    ensures r >= 1
  {
    if k == 0 then 1 else 2 * Pow2(k - 1)
  }

  predicate IsPowerOfTwo(a: nat)
  {
    a == 1 || (a >= 2 && a % 2 == 0 && IsPowerOfTwo(a / 2))
  }

  /** The exponent of a power of two. */
  function Log2(a: nat): (k: nat)
    requires IsPowerOfTwo(a)
    ensures Pow2(k) == a
  {
    if a == 1 then 0 else 1 + Log2(a / 2)
  }

  /** Bitwise AND of two unsigned values (C++ `&`). */
  function BitAnd(x: nat, y: nat): (r: nat)
    ensures r <= x && r <= y
  {
    if x == 0 || y == 0 then 0
    else 2 * BitAnd(x / 2, y / 2) + (if x % 2 == 1 && y % 2 == 1 then 1 else 0)
  }

  /** 64-bit complement (C++ `~` on `size_t`). */
  function BitNot(x: Address): Address
  {
    AddressSpace - 1 - x
  }

  /** 64-bit wrapping addition. */
  function AddWrap(x: Address, y: Address): Address
  {
    (x + y) % AddressSpace
  }

  /** 64-bit wrapping `x - 1`. */
  function Decrement(x: Address): Address
  {
    if x == 0 then AddressSpace - 1 else x - 1
  }

  /** `isAligned`: the address has no bit set below the register size. */
  predicate IsAligned(p: Address, registerSize: Address)
  {
    BitAnd(p, Decrement(registerSize)) == 0
  }

  /** `snapPointerToAlignment`: `(p + (a - 1)) & ~(a - 1)` on `size_t`. */
  function SnapPointerToAlignment(p: Address, alignmentBytes: Address): Address
  {
    var mask := Decrement(alignmentBytes);
    BitAnd(AddWrap(p, mask), BitNot(mask))
  }

  /** `getNextAlignedPtr`: snap to the register size. */
  function GetNextAlignedPtr(p: Address, registerSize: Address): Address
  {
    SnapPointerToAlignment(p, registerSize)
  }

  // ---------------------------------------------------------------------------
  // Arithmetic facts about powers of two and masks

  lemma {:induction false} Pow2Add(a: nat, b: nat)
    ensures Pow2(a + b) == Pow2(a) * Pow2(b)
  {
    if a > 0 {
      Pow2Add(a - 1, b);
    }
  }

  lemma AddressSpaceIsPow2()
    ensures Pow2(AddressBits) == AddressSpace
  {
    assert Pow2(2) == 4;
    Pow2Add(2, 2);
    assert Pow2(4) == 16;
    Pow2Add(4, 4);
    assert Pow2(8) == 256;
    Pow2Add(8, 8);
    assert Pow2(16) == 65536;
    Pow2Add(16, 16);
    assert Pow2(32) == 4294967296;
    Pow2Add(32, 32);
  }

  lemma {:induction false} Pow2Monotonic(k: nat, w: nat)
    requires k <= w
    ensures Pow2(k) <= Pow2(w)
  {
    if k < w {
      Pow2Monotonic(k, w - 1);
    }
  }

  lemma MulAtLeast(a: int, d: int)
    requires a >= 1 && d > 0
    ensures a * d >= d
  {
  }

  lemma PositiveFactor(x: int, d: int)
    requires d > 0 && x * d > 0
    ensures x >= 1
  {
  }

  /** Quotient and remainder are determined by `x == q * d + r` with `0 <= r < d`. */
  lemma DivModUnique(x: int, d: int, q: int, r: int)
    requires d > 0 && 0 <= r < d && x == q * d + r
    ensures x / d == q && x % d == r
  {
    var q', r' := x / d, x % d;
    assert x == q' * d + r';
    assert (q - q') * d == r' - r;
    if q > q' {
      MulAtLeast(q - q', d);
    } else if q < q' {
      MulAtLeast(q' - q, d);
    }
  }

  /** Splitting off the lowest bit of a remainder by a power of two. */
  lemma ModDouble(x: nat, p: nat)
    requires p >= 1
    ensures x % (2 * p) == 2 * ((x / 2) % p) + x % 2
  {
    var q := (x / 2) / p;
    var r := (x / 2) % p;
    assert x / 2 == q * p + r;
    assert x == (x / 2) * 2 + x % 2;
    assert x == q * (2 * p) + (2 * r + x % 2);
    DivModUnique(x, 2 * p, q, 2 * r + x % 2);
  }

  /** One step of `BitAnd` against a mask whose lowest bit is set. */
  lemma BitAndOddMask(x: nat, m: nat)
    requires x > 0 && m % 2 == 1
    ensures BitAnd(x, m) == 2 * BitAnd(x / 2, m / 2) + x % 2
  {
  }

  /** One step of `BitAnd` against a mask whose lowest bit is clear. */
  lemma BitAndEvenMask(x: nat, m: nat)
    requires m % 2 == 0
    ensures BitAnd(x, m) == 2 * BitAnd(x / 2, m / 2)
  {
  }

  /** The low `k` bits of `x`, read off one bit at a time. */
  function LowBits(x: nat, k: nat): nat
  {
    if k == 0 then 0 else 2 * LowBits(x / 2, k - 1) + x % 2
  }

  /** The low `k` bits are the remainder modulo `2^k`. */
  lemma {:induction false} LowBitsIsMod(x: nat, k: nat)
    ensures LowBits(x, k) == x % Pow2(k)
  {
    if k > 0 {
      LowBitsIsMod(x / 2, k - 1);
      ModDouble(x, Pow2(k - 1));
    }
  }

  /** A value below `2^k` is its own low `k` bits. */
  lemma {:induction false} LowBitsOfSmall(x: nat, k: nat)
    requires x < Pow2(k)
    ensures LowBits(x, k) == x
  {
    if k > 0 {
      LowBitsOfSmall(x / 2, k - 1);
    }
  }

  /** Masking with `2^k - 1` keeps the low `k` bits. */
  lemma {:induction false} LowMaskKeepsLowBits(x: nat, k: nat)
    ensures BitAnd(x, Pow2(k) - 1) == LowBits(x, k)
  {
    if k > 0 {
      var m := Pow2(k) - 1;
      assert m / 2 == Pow2(k - 1) - 1 && m % 2 == 1;
      LowMaskKeepsLowBits(x / 2, k - 1);
      if x > 0 {
        BitAndOddMask(x, m);
      }
    }
  }

  /** Masking with `2^k - 1` keeps the remainder modulo `2^k`. */
  lemma LowMaskIsMod(x: nat, k: nat)
    ensures BitAnd(x, Pow2(k) - 1) == x % Pow2(k)
  {
    LowMaskKeepsLowBits(x, k);
    LowBitsIsMod(x, k);
  }

  /** Masking with `2^w - 2^k` clears the low `k` bits of a `w`-bit value. */
  lemma {:induction false} HighMaskClearsLowBits(x: nat, k: nat, w: nat)
    requires k <= w && x < Pow2(w)
    ensures Pow2(k) <= Pow2(w)
    ensures BitAnd(x, Pow2(w) - Pow2(k)) == x - LowBits(x, k)
    decreases k, 1
  {
    Pow2Monotonic(k, w);
    if k == 0 {
      LowMaskKeepsLowBits(x, w);
      LowBitsOfSmall(x, w);
    } else if k == w {
      LowBitsOfSmall(x, w);
    } else if x == 0 {
      LowBitsOfSmall(x, k);
    } else {
      HighMaskStep(x, k, w);
    }
  }

  /** The inductive step of `HighMaskClearsLowBits`: drop the lowest bit of `x` and of the mask. */
  lemma {:induction false} HighMaskStep(x: nat, k: nat, w: nat)
    requires 0 < k < w && x < Pow2(w) && Pow2(k) <= Pow2(w)
    ensures BitAnd(x, Pow2(w) - Pow2(k)) == x - LowBits(x, k)
    decreases k, 0
  {
    var m := Pow2(w) - Pow2(k);
    HalveMask(k, w);
    BitAndEvenMask(x, m);
    HighMaskClearsLowBits(x / 2, k - 1, w - 1);
    DropLowestBit(x, BitAnd(x, m), LowBits(x / 2, k - 1), LowBits(x, k));
  }

  /** The mask `2^w - 2^k` is even, and halving it lowers both exponents by one. */
  lemma HalveMask(k: nat, w: nat)
    requires 0 < k < w && Pow2(k) <= Pow2(w)
    ensures (Pow2(w) - Pow2(k)) % 2 == 0 && (Pow2(w) - Pow2(k)) / 2 == Pow2(w - 1) - Pow2(k - 1)
    ensures Pow2(k - 1) <= Pow2(w - 1)
  {
  }

  /** Halving `x` and doubling back loses only its lowest bit. */
  lemma DropLowestBit(x: nat, masked: int, low: int, lowBits: int)
    requires masked == 2 * (x / 2 - low) && lowBits == 2 * low + x % 2
    ensures masked == x - lowBits
  {
  }

  // ---------------------------------------------------------------------------
  // isAligned

  /**
   * The bitmask test of `isAligned` is the divisibility test when the register
   * size is a power of two.
   */
  lemma IsAlignedIffMultiple(p: Address, registerSize: Address)
    requires IsPowerOfTwo(registerSize)
    ensures IsAligned(p, registerSize) <==> p % registerSize == 0
  {
    var k := Log2(registerSize);
    LowMaskIsMod(p, k);
  }

  // ---------------------------------------------------------------------------
  // snapPointerToAlignment

  /**
   * Without wrap-around, the snap is `q - q % a` for `q = p + a - 1`: the formula
   * clears the low bits of the rounded-up address.
   */
  lemma SnapClosedForm(p: Address, a: Address)
    requires IsPowerOfTwo(a) && p + a - 1 < AddressSpace
    ensures SnapPointerToAlignment(p, a) == (p + a - 1) - (p + a - 1) % a
  {
    SnapAsMask(p, a);
    HighMaskOfPowerOfTwo(p + a - 1, a);
  }

  /** Without wrap-around, the snap masks `p + a - 1` with the complement of `a - 1`. */
  lemma SnapAsMask(p: Address, a: Address)
    requires a > 0 && p + a - 1 < AddressSpace
    ensures SnapPointerToAlignment(p, a) == BitAnd(p + a - 1, AddressSpace - a)
  {
    assert Decrement(a) == a - 1;
    assert AddWrap(p, a - 1) == p + a - 1;
  }

  /** The complement of `a - 1` keeps an address's bits from `a` upwards. */
  lemma HighMaskOfPowerOfTwo(q: nat, a: nat)
    requires IsPowerOfTwo(a) && a < AddressSpace && q < AddressSpace
    ensures BitAnd(q, AddressSpace - a) == q - q % a
  {
    var k := Log2(a);
    AddressSpaceIsPow2();
    if k >= AddressBits {
      Pow2Monotonic(AddressBits, k);
    } else {
      HighMaskClearsLowBits(q, k, AddressBits);
      LowBitsIsMod(q, k);
    }
  }

  /** `q - q % a` is the largest multiple of `a` not above `q`. */
  lemma RoundDownFacts(q: int, a: int)
    requires q >= 0 && a > 0
    ensures (q - q % a) % a == 0 && q - a < q - q % a <= q
  {
    var d := q / a;
    assert q == d * a + q % a;
    DivModUnique(q - q % a, a, d, 0);
  }

  /** Two multiples of `a` closer than `a` to each other are equal. */
  lemma MultiplesApart(m: int, s: int, a: int)
    requires a > 0 && m % a == 0 && s % a == 0 && m < s
    ensures s - m >= a
  {
    var i, j := m / a, s / a;
    assert m == i * a && s == j * a;
    assert s - m == (j - i) * a;
    PositiveFactor(j - i, a);
    MulAtLeast(j - i, a);
  }

  /**
   * For a power-of-two `a` and an address that does not wrap, the snapped
   * address is a multiple of `a`, is at least `p` and exceeds it by less than `a`.
   */
  lemma SnapRoundsUp(p: Address, a: Address)
    requires IsPowerOfTwo(a) && p + a - 1 < AddressSpace
    ensures var s := SnapPointerToAlignment(p, a);
      s % a == 0 && p <= s < p + a
  {
    SnapClosedForm(p, a);
    RoundUpFacts(p, a);
  }

  /** `p` rounded up to a multiple of `a` through `q - q % a` with `q = p + a - 1`. */
  lemma RoundUpFacts(p: int, a: int)
    requires p >= 0 && a > 0
    ensures var s := (p + a - 1) - (p + a - 1) % a;
      s % a == 0 && p <= s < p + a
  {
    RoundDownFacts(p + a - 1, a);
  }

  /** No multiple of `a` that is at least `p` lies below the snapped address. */
  lemma SnapIsLeastMultiple(p: Address, a: Address, m: int)
    requires IsPowerOfTwo(a) && p + a - 1 < AddressSpace
    requires m % a == 0 && m >= p
    ensures SnapPointerToAlignment(p, a) <= m
  {
    SnapRoundsUp(p, a);
    var s := SnapPointerToAlignment(p, a);
    if m < s {
      MultiplesApart(m, s, a);
    }
  }

  /** An address that is already a multiple of `a` is returned unchanged. */
  lemma SnapFixesMultiples(p: Address, a: Address)
    requires IsPowerOfTwo(a) && p % a == 0 && p + a - 1 < AddressSpace
    ensures SnapPointerToAlignment(p, a) == p
  {
    SnapRoundsUp(p, a);
    var s := SnapPointerToAlignment(p, a);
    if p < s {
      MultiplesApart(p, s, a);
    }
  }

  /** Snapping twice is snapping once. */
  lemma SnapIdempotent(p: Address, a: Address)
    requires IsPowerOfTwo(a) && p + 2 * a - 2 < AddressSpace
    ensures var s := SnapPointerToAlignment(p, a);
      SnapPointerToAlignment(s, a) == s
  {
    SnapRoundsUp(p, a);
    SnapFixesMultiples(SnapPointerToAlignment(p, a), a);
  }

  // ---------------------------------------------------------------------------
  // getNextAlignedPtr

  /**
   * `getNextAlignedPtr` returns an aligned address, less than one register past
   * `p`, and `p` itself when `p` is already aligned (not the "next" one).
   */
  lemma NextAlignedPtrIsAligned(p: Address, registerSize: Address)
    requires IsPowerOfTwo(registerSize) && p + registerSize - 1 < AddressSpace
    ensures var q := GetNextAlignedPtr(p, registerSize);
      && IsAligned(q, registerSize)
      && p <= q < p + registerSize
      && (IsAligned(p, registerSize) ==> q == p)
  {
    var q := GetNextAlignedPtr(p, registerSize);
    SnapRoundsUp(p, registerSize);
    IsAlignedIffMultiple(q, registerSize);
    IsAlignedIffMultiple(p, registerSize);
    if IsAligned(p, registerSize) {
      SnapFixesMultiples(p, registerSize);
    }
  }
}
