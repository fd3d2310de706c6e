/**
 * `chowdsp::ModalFilterBank`: up to `maxNumModes` resonant modes packed
 * `vecSize` to a group, one `ModalFilter` over SIMD batches per group. The
 * scalar mode `k` lives in lane `k % vecSize` of group `k / vecSize`; the lanes
 * past `maxNumModes` in the last group are padding. Parameter updates walk every
 * lane of every group (`doForModes`), and rendering runs the first
 * `numVecModesToProcess` groups over the block, summing their lanes into a
 * one-channel render buffer.
 *
 * The resonator recurrence of a group (`processSample`), the complex magnitude
 * and the tau-to-t60 conversion are parameters of the bank: their arithmetic is
 * transcendental and is not part of this model.
 */
module ModalBank {
  import ReductionSpec
  import Buffers
  import Alignment

  datatype Complex = Complex(re: real, im: real)

  const Zero: Complex := Complex(0.0, 0.0)

  /** A complex amplitude multiplied by a real factor. */
  function Scale(c: Complex, factor: real): Complex
  {
    Complex(c.re * factor, c.im * factor)
  }

  /**
   * One `ModalFilter<xsimd::batch<T>>`: per lane the amplitude, frequency and
   * t60 decay last set, the sample rate it was prepared with, and the
   * oscillator state that the recurrence advances.
   */
  datatype ModeGroup = ModeGroup(amp: seq<Complex>, freq: seq<real>, t60: seq<real>, fs: real, state: seq<Complex>)

  /** A group of `width` silent lanes, as the bank holds them before any update. */
  function Idle(width: nat): ModeGroup
  {
    ModeGroup(seq(width, _ => Zero), seq(width, _ => 0.0), seq(width, _ => 0.0), 0.0, seq(width, _ => Zero))
  }

  /** `ModalFilter::reset`: the oscillator state goes back to zero. */
  function ResetGroup(g: ModeGroup): ModeGroup
  {
    g.(state := seq(|g.state|, _ => Zero))
  }

  /** `ModalFilter::prepare`: record the sample rate, then reset. */
  function PrepareGroup(g: ModeGroup, sampleRate: real): ModeGroup
  {
    ResetGroup(g.(fs := sampleRate))
  }

  /** `processSample` of one group: the advanced group and its lane outputs. */
  type Step = (ModeGroup, real) -> (ModeGroup, seq<real>)

  /** The modulator of `processWithModulation`: it may change the group given the group and sample index. */
  type Modulator = (ModeGroup, nat, nat) -> ModeGroup

  /** What `process` does between samples: nothing. */
  const Unmodulated: Modulator := (g: ModeGroup, gi: nat, n: nat) => g

  /** `Math::ceiling_divide`. */
  function CeilDiv(n: nat, d: nat): nat
    requires d > 0
  {
    (n + d - 1) / d
  }

  /** The ceiling quotient is the least number of `d`-lane groups holding `n` items. */
  lemma CeilDivIsLeast(n: nat, d: nat)
    requires d > 0
    ensures CeilDiv(n, d) * d >= n
    ensures CeilDiv(n, d) == 0 || (CeilDiv(n, d) - 1) * d < n
  {
    var q, r := (n + d - 1) / d, (n + d - 1) % d;
    assert n + d - 1 == q * d + r;
  }

  lemma CeilDivMonotonic(n: nat, m: nat, d: nat)
    requires d > 0 && n <= m
    ensures CeilDiv(n, d) <= CeilDiv(m, d)
  {
    CeilDivIsLeast(n, d);
    CeilDivIsLeast(m, d);
    var a, b := CeilDiv(n, d), CeilDiv(m, d);
    if a > 0 {
      assert (b - (a - 1)) * d == b * d - (a - 1) * d;
      Alignment.PositiveFactor(b - (a - 1), d);
    }
  }

  /** Lane `j` of group `i` is the scalar mode `i * vecSize + j`, and no other lane is. */
  lemma ModeIndexSplit(i: nat, j: nat, vecSize: nat)
    requires j < vecSize
    ensures (i * vecSize + j) / vecSize == i && (i * vecSize + j) % vecSize == j
  {
    Alignment.DivModUnique(i * vecSize + j, vecSize, i, j);
  }

  /** Every scalar mode below `numGroups * vecSize` has a lane in one of the groups. */
  lemma ModeIndexCovers(k: nat, vecSize: nat, numGroups: nat)
    requires vecSize > 0 && k < numGroups * vecSize
    ensures k / vecSize < numGroups && k % vecSize < vecSize
    ensures k == (k / vecSize) * vecSize + k % vecSize
  {
    var q := k / vecSize;
    assert (numGroups - q) * vecSize == numGroups * vecSize - q * vecSize;
    Alignment.PositiveFactor(numGroups - q, vecSize);
  }

  /** The batch a `perModeFunc` fills for group `group`: lane `j` gets the value of scalar mode `group * vecSize + j`. */
  function Lanes<T>(value: nat -> T, group: nat, vecSize: nat): seq<T>
  {
    seq(vecSize, j requires 0 <= j < vecSize => value(group * vecSize + j))
  }

  /**
   * The inner loop of `doForModes` for group `i`: lane `j` filled from scalar mode
   * `i * vecSize + j`, extending the indices visited so far by the group's own.
   */
  method LaneBatch<T>(value: nat -> T, i: nat, vecSize: nat, ghost visited: seq<nat>)
    returns (batch: seq<T>, ghost visited': seq<nat>)
    requires visited == Indices(i * vecSize)
    ensures batch == Lanes(value, i, vecSize)
    ensures visited' == Indices((i + 1) * vecSize)
  {
    batch := [];
    visited' := visited;
    var j := 0;
    while j < vecSize
      invariant j <= vecSize
      invariant batch == Lanes(value, i, vecSize)[..j]
      invariant visited' == Indices(i * vecSize + j)
    {
      batch := batch + [value(i * vecSize + j)];
      visited' := visited' + [i * vecSize + j];
      j := j + 1;
    }
    assert (i + 1) * vecSize == i * vecSize + vecSize;
  }

  /** The scalar indices `0, 1, ..., count - 1`. */
  function Indices(count: nat): seq<nat>
  {
    seq(count, k => k)
  }

  /**
   * Mode `k`'s lane amplitude in `setModeAmplitudesInternal`: its amplitude
   * times the normalisation factor while `k < numModesToProcess`, else zero.
   * The bank keeps `numModesToProcess <= |amplitudeData|`, so the second test
   * never decides.
   */
  function MaskedAmplitude(amps: seq<Complex>, numModesToProcess: nat, factor: real, k: nat): (r: Complex)
    ensures k >= numModesToProcess ==> r == Zero
    ensures k < numModesToProcess <= |amps| ==> r == Scale(amps[k], factor)
  {
    if k < numModesToProcess && k < |amps| then Scale(amps[k], factor) else Zero
  }

  /**
   * `updateAmplitudeNormalizationFactor`: scale so that the lowest mode's
   * magnitude becomes `normalize`, unless either is not positive.
   */
  function NormalizationFactor(normalize: real, lowestModeMag: real): (r: real)
    ensures r > 0.0
    ensures normalize > 0.0 && lowestModeMag > 0.0 ==> r * lowestModeMag == normalize
    ensures !(normalize > 0.0 && lowestModeMag > 0.0) ==> r == 1.0
  {
    if normalize > 0.0 && lowestModeMag > 0.0 then normalize / lowestModeMag else 1.0
  }

  /**
   * The cut of `setModeFrequencies`: a frequency above `maxFreq` becomes 0. What
   * is kept never exceeds a non-negative `maxFreq`.
   */
  function CutAbove(freq: real, maxFreq: real): (r: real)
    ensures freq <= maxFreq ==> r == freq
    ensures freq > maxFreq ==> r == 0.0
    ensures maxFreq >= 0.0 ==> r <= maxFreq
  {
    if freq > maxFreq then 0.0 else freq
  }

  /** Lane `k` of `setModeFrequencies`: the scaled base frequency (0 for padding lanes), cut above `maxFreq`. */
  function LaneFrequency(base: seq<real>, multiplier: real, maxFreq: real, k: nat): (r: real)
    ensures k >= |base| ==> r == 0.0
    ensures maxFreq >= 0.0 ==> r <= maxFreq
    ensures k < |base| && base[k] * multiplier <= maxFreq ==> r == base[k] * multiplier
  {
    CutAbove(if k < |base| then base[k] * multiplier else 0.0, maxFreq)
  }

  /** `tau2t60 (taus, originalSampleRate) * decayFactor` on a batch, lane by lane. */
  function DecayTimes(tau2t60: (real, real) -> real, taus: seq<real>, originalSampleRate: real, decayFactor: real): seq<real>
  {
    seq(|taus|, j requires 0 <= j < |taus| => tau2t60(taus[j], originalSampleRate) * decayFactor)
  }

  /**
   * Lane `j` of every group `i` holds the masked amplitude of scalar mode
   * `i * vecSize + j`.
   */
  ghost predicate LanesMasked(groups: seq<ModeGroup>, vecSize: nat, amps: seq<Complex>, numModesToProcess: nat, factor: real)
  {
    && (forall i :: 0 <= i < |groups| ==> |groups[i].amp| == vecSize)
    && (forall i, j :: 0 <= i < |groups| && 0 <= j < vecSize ==>
          groups[i].amp[j] == MaskedAmplitude(amps, numModesToProcess, factor, i * vecSize + j))
  }

  /** Masking is a property of the amplitudes alone. */
  lemma LanesMaskedKeptByAmplitudes(groups: seq<ModeGroup>, others: seq<ModeGroup>, vecSize: nat, amps: seq<Complex>, numModesToProcess: nat, factor: real)
    requires LanesMasked(groups, vecSize, amps, numModesToProcess, factor)
    requires |others| == |groups| && forall i :: 0 <= i < |groups| ==> others[i].amp == groups[i].amp
    ensures LanesMasked(others, vecSize, amps, numModesToProcess, factor)
  {
  }

  /** The outcome of running one group over a block: the final group and each sample's lane sum. */
  datatype Rendered = Rendered(group: ModeGroup, out: seq<real>)

  /**
   * Group `gi`, starting as `g`, run over the samples `xs`: before sample `n`
   * the modulator sees the group, then `processSample` advances it and the sum
   * of its lanes (`reduce_add`) is that sample's contribution.
   */
  function Run(step: Step, modulate: Modulator, gi: nat, g: ModeGroup, xs: seq<real>): (r: Rendered)
    ensures |r.out| == |xs|
    decreases |xs|
  {
    if xs == [] then Rendered(g, [])
    else
      var prev := Run(step, modulate, gi, g, xs[..|xs| - 1]);
      var next := step(modulate(prev.group, gi, |xs| - 1), xs[|xs| - 1]);
      Rendered(next.0, prev.out + [ReductionSpec.Sum(next.1)])
  }

  /** The render buffer contents after running `groups` (group `i` is mode group `i`) over `xs`. */
  function Mix(step: Step, modulate: Modulator, groups: seq<ModeGroup>, xs: seq<real>): (r: seq<real>)
    ensures |r| == |xs|
    decreases |groups|
  {
    if groups == [] then seq(|xs|, _ => 0.0)
    else
      var k := |groups| - 1;
      var rest := Mix(step, modulate, groups[..k], xs);
      var own := Run(step, modulate, k, groups[k], xs).out;
      seq(|xs|, n requires 0 <= n < |xs| => rest[n] + own[n])
  }

  /** A group's output up to sample `m` does not depend on the samples after it. */
  lemma {:induction false} RunPrefix(step: Step, modulate: Modulator, gi: nat, g: ModeGroup, xs: seq<real>, m: nat)
    requires m <= |xs|
    ensures Run(step, modulate, gi, g, xs[..m]) == Run(step, modulate, gi, g, xs[..m]).(out := Run(step, modulate, gi, g, xs).out[..m])
    decreases |xs|
  {
    if m < |xs| {
      var ys := xs[..|xs| - 1];
      assert ys[..m] == xs[..m];
      RunPrefix(step, modulate, gi, g, ys, m);
      assert Run(step, modulate, gi, g, xs).out[..m] == Run(step, modulate, gi, g, ys).out[..m];
    } else {
      assert xs[..m] == xs;
    }
  }

  /** One more sample: the group is stepped once more and its sum is the output at that sample. */
  lemma RunStep(step: Step, modulate: Modulator, gi: nat, g: ModeGroup, xs: seq<real>, n: nat)
    requires n < |xs|
    ensures var next := step(modulate(Run(step, modulate, gi, g, xs[..n]).group, gi, n), xs[n]);
            && Run(step, modulate, gi, g, xs[..n + 1]).group == next.0
            && Run(step, modulate, gi, g, xs).out[n] == ReductionSpec.Sum(next.1)
  {
    assert xs[..n + 1][..n] == xs[..n];
    RunPrefix(step, modulate, gi, g, xs, n + 1);
  }

  /** Rendering is causal: the mix of a block's first `m` samples is the first `m` samples of the mix. */
  lemma {:induction false} MixPrefix(step: Step, modulate: Modulator, groups: seq<ModeGroup>, xs: seq<real>, m: nat)
    requires m <= |xs|
    ensures Mix(step, modulate, groups, xs[..m]) == Mix(step, modulate, groups, xs)[..m]
    decreases |groups|
  {
    if groups != [] {
      var k := |groups| - 1;
      MixPrefix(step, modulate, groups[..k], xs, m);
      RunPrefix(step, modulate, k, groups[k], xs, m);
      var short, long := Mix(step, modulate, groups, xs[..m]), Mix(step, modulate, groups, xs);
      forall n | 0 <= n < m
        ensures short[n] == long[n]
      {
      }
    }
  }

  class ModalFilterBank {
    const maxNumModes: nat
    /** Lanes per batch for the architecture. */
    const vecSize: nat
    const maxNumVecModes: nat
    const processSample: Step
    /** `std::abs` of a complex amplitude. */
    const magnitude: Complex -> real
    /** `tau2t60` for one lane: decay constant and original sample rate to t60. */
    const tau2t60: (real, real) -> real
    const modes: array<ModeGroup>
    const renderBuffer: Buffers.Buffer
    var amplitudeData: seq<Complex>
    var amplitudeNormalizationFactor: real
    var numModesToProcess: nat
    var numVecModesToProcess: nat
    var maxFreq: real

    ghost predicate Valid()
      reads this, modes, renderBuffer, renderBuffer.Repr
    {
      && vecSize > 0 && maxNumModes > 0
      && maxNumVecModes == CeilDiv(maxNumModes, vecSize) && modes.Length == maxNumVecModes
      && |amplitudeData| == maxNumModes
      && numModesToProcess <= maxNumModes
      && numVecModesToProcess == CeilDiv(numModesToProcess, vecSize) && numVecModesToProcess <= maxNumVecModes
      && renderBuffer.Valid() && renderBuffer.maxNumChannels > 1 && |renderBuffer.rawData| >= 1
      && this !in renderBuffer.Repr && modes !in renderBuffer.Repr
    }

    /**
     * Every lane's amplitude is its mode's amplitude times the normalisation
     * factor while the mode is processed, and zero otherwise.
     */
    ghost predicate AmplitudesMasked()
      reads this, modes
    {
      LanesMasked(modes[..], vecSize, amplitudeData, numModesToProcess, amplitudeNormalizationFactor)
    }

    /** Only the amplitudes of the groups differ between `old` and now. */
    twostate predicate OnlyAmplitudesChanged()
      reads modes
    {
      forall i :: 0 <= i < modes.Length ==> modes[i] == old(modes[i]).(amp := modes[i].amp)
    }

    /**
     * All modes processed, unit amplitude scaling, silent idle groups. The
     * render buffer starts with one channel of one sample; `prepare` sizes it.
     */
    constructor(maxNumModes: nat, vecSize: nat, processSample: Step, magnitude: Complex -> real,
                tau2t60: (real, real) -> real, renderBufferChannels: nat)
      requires maxNumModes > 0 && vecSize > 0 && renderBufferChannels > 1
      ensures Valid() && fresh(modes) && fresh(renderBuffer.Repr)
      ensures this.maxNumModes == maxNumModes && this.vecSize == vecSize
      ensures this.processSample == processSample && this.magnitude == magnitude && this.tau2t60 == tau2t60
      ensures numModesToProcess == maxNumModes && numVecModesToProcess == maxNumVecModes
      ensures amplitudeNormalizationFactor == 1.0
    {
      this.maxNumModes := maxNumModes;
      this.vecSize := vecSize;
      maxNumVecModes := CeilDiv(maxNumModes, vecSize);
      this.processSample := processSample;
      this.magnitude := magnitude;
      this.tau2t60 := tau2t60;
      modes := new ModeGroup[CeilDiv(maxNumModes, vecSize)](_ => Idle(vecSize));
      renderBuffer := new Buffers.Buffer(renderBufferChannels, 1, 1);
      amplitudeData := seq(maxNumModes, _ => Zero);
      amplitudeNormalizationFactor := 1.0;
      numModesToProcess := maxNumModes;
      numVecModesToProcess := CeilDiv(maxNumModes, vecSize);
      maxFreq := 0.0;
    }

    /**
     * `doForModes`: for every group in order, fill lane `j` from scalar mode
     * `i * vecSize + j`, then hand the filled batch to the group. `visited`
     * records the scalar indices in the order the per-mode function sees them.
     */
    method DoForModes<T>(value: nat -> T, store: (ModeGroup, seq<T>) -> ModeGroup) returns (ghost visited: seq<nat>)
      requires vecSize > 0
      modifies modes
      ensures forall i :: 0 <= i < modes.Length ==> modes[i] == store(old(modes[i]), Lanes(value, i, vecSize))
      ensures visited == Indices(modes.Length * vecSize)
    {
      visited := [];
      var i := 0;
      while i < modes.Length
        invariant i <= modes.Length
        invariant visited == Indices(i * vecSize)
        invariant forall k :: 0 <= k < i ==> modes[k] == store(old(modes[k]), Lanes(value, k, vecSize))
        invariant forall k :: i <= k < modes.Length ==> modes[k] == old(modes[k])
      {
        var batch;
        batch, visited := LaneBatch(value, i, vecSize, visited);
        modes[i] := store(modes[i], batch);
        i := i + 1;
      }
    }

    /** `setModeAmplitudesInternal`: write the masked, scaled amplitudes into every lane. */
    method SetModeAmplitudesInternal()
      requires Valid()
      modifies modes
      ensures Valid() && AmplitudesMasked() && OnlyAmplitudesChanged()
    {
      var amps, count, factor := amplitudeData, numModesToProcess, amplitudeNormalizationFactor;
      ghost var visited := DoForModes((k: nat) => MaskedAmplitude(amps, count, factor, k), (g: ModeGroup, b: seq<Complex>) => g.(amp := b));
    }

    /** `updateAmplitudeNormalizationFactor`, from the magnitude of the lowest mode. */
    method UpdateAmplitudeNormalizationFactor(normalize: real)
      requires Valid()
      modifies this
      ensures Valid() && amplitudeData == old(amplitudeData)
      ensures numModesToProcess == old(numModesToProcess) && numVecModesToProcess == old(numVecModesToProcess)
      ensures maxFreq == old(maxFreq)
      ensures amplitudeNormalizationFactor == NormalizationFactor(normalize, magnitude(amplitudeData[0]))
    {
      var lowestModeMag := magnitude(amplitudeData[0]);
      if normalize > 0.0 && lowestModeMag > 0.0 {
        amplitudeNormalizationFactor := normalize / lowestModeMag;
      } else {
        amplitudeNormalizationFactor := 1.0;
      }
    }

    /** `setModeAmplitudes` from complex amplitudes. */
    method SetModeAmplitudes(amps: seq<Complex>, normalize: real)
      requires Valid() && |amps| == maxNumModes
      modifies this, modes
      ensures Valid() && amplitudeData == amps
      ensures amplitudeNormalizationFactor == NormalizationFactor(normalize, magnitude(amps[0]))
      ensures numModesToProcess == old(numModesToProcess) && numVecModesToProcess == old(numVecModesToProcess)
      ensures maxFreq == old(maxFreq)
      ensures AmplitudesMasked() && OnlyAmplitudesChanged()
    {
      amplitudeData := amps;
      UpdateAmplitudeNormalizationFactor(normalize);
      SetModeAmplitudesInternal();
    }

    /** `setModeAmplitudes` from separate real and imaginary parts. */
    method SetModeAmplitudesFromParts(ampsReal: seq<real>, ampsImag: seq<real>, normalize: real)
      requires Valid() && |ampsReal| == maxNumModes && |ampsImag| == maxNumModes
      modifies this, modes
      ensures Valid() && |amplitudeData| == maxNumModes
      ensures forall k :: 0 <= k < maxNumModes ==> amplitudeData[k] == Complex(ampsReal[k], ampsImag[k])
      ensures amplitudeNormalizationFactor == NormalizationFactor(normalize, magnitude(Complex(ampsReal[0], ampsImag[0])))
      ensures numModesToProcess == old(numModesToProcess) && numVecModesToProcess == old(numVecModesToProcess)
      ensures maxFreq == old(maxFreq)
      ensures AmplitudesMasked() && OnlyAmplitudesChanged()
    {
      var i := 0;
      while i < maxNumModes
        modifies this
        invariant i <= maxNumModes && Valid()
        invariant numModesToProcess == old(numModesToProcess) && numVecModesToProcess == old(numVecModesToProcess)
        invariant maxFreq == old(maxFreq)
        invariant forall k :: 0 <= k < i ==> amplitudeData[k] == Complex(ampsReal[k], ampsImag[k])
      {
        amplitudeData := amplitudeData[i := Complex(ampsReal[i], ampsImag[i])];
        i := i + 1;
      }
      UpdateAmplitudeNormalizationFactor(normalize);
      SetModeAmplitudesInternal();
    }

    /**
     * `setModeFrequencies`: mode `k` gets `baseFrequencies[k] * frequencyMultiplier`,
     * padding lanes 0, and any frequency above `maxFreq` becomes 0.
     */
    method SetModeFrequencies(baseFrequencies: seq<real>, frequencyMultiplier: real)
      requires Valid() && |baseFrequencies| == maxNumModes
      modifies modes
      ensures Valid()
      ensures forall i, j :: 0 <= i < modes.Length && 0 <= j < vecSize ==>
        j < |modes[i].freq| &&
        var k := i * vecSize + j;
        modes[i].freq[j] == CutAbove(if k < maxNumModes then baseFrequencies[k] * frequencyMultiplier else 0.0, maxFreq)
      ensures forall i :: 0 <= i < modes.Length ==> modes[i] == old(modes[i]).(freq := modes[i].freq)
    {
      var base, limit := baseFrequencies, maxFreq;
      var value := (k: nat) => LaneFrequency(base, frequencyMultiplier, limit, k);
      ghost var visited := DoForModes(value, (g: ModeGroup, b: seq<real>) => g.(freq := b));
      forall i, j | 0 <= i < modes.Length && 0 <= j < vecSize
        ensures j < |modes[i].freq|
        ensures modes[i].freq[j] == LaneFrequency(baseFrequencies, frequencyMultiplier, maxFreq, i * vecSize + j)
      {
        assert modes[i].freq == Lanes(value, i, vecSize);
        assert modes[i].freq[j] == value(i * vecSize + j);
      }
    }

    /**
     * `setModeDecays` from decay constants: lane `k` is converted from
     * `baseTaus[k]` (1 for padding lanes) and scaled by `decayFactor`.
     */
    method SetModeDecays(baseTaus: seq<real>, originalSampleRate: real, decayFactor: real)
      requires Valid() && |baseTaus| == maxNumModes
      modifies modes
      ensures Valid()
      ensures forall i, j :: 0 <= i < modes.Length && 0 <= j < vecSize ==>
        j < |modes[i].t60| &&
        var k := i * vecSize + j;
        modes[i].t60[j] == tau2t60(if k < maxNumModes then baseTaus[k] else 1.0, originalSampleRate) * decayFactor
      ensures forall i :: 0 <= i < modes.Length ==> modes[i] == old(modes[i]).(t60 := modes[i].t60)
    {
      var taus, convert := baseTaus, tau2t60;
      ghost var visited := DoForModes(
        (k: nat) => if k < |taus| then taus[k] else 1.0,
        (g: ModeGroup, b: seq<real>) => g.(t60 := DecayTimes(convert, b, originalSampleRate, decayFactor)));
    }

    /** `setModeDecays` from t60 times: lane `k` gets `t60s[k]`, padding lanes 0. */
    method SetModeDecaysT60(t60s: seq<real>)
      requires Valid() && |t60s| == maxNumModes
      modifies modes
      ensures Valid()
      ensures forall i, j :: 0 <= i < modes.Length && 0 <= j < vecSize ==>
        j < |modes[i].t60| &&
        var k := i * vecSize + j;
        modes[i].t60[j] == if k < maxNumModes then t60s[k] else 0.0
      ensures forall i :: 0 <= i < modes.Length ==> modes[i] == old(modes[i]).(t60 := modes[i].t60)
    {
      var times := t60s;
      ghost var visited := DoForModes(
        (k: nat) => if k < |times| then times[k] else 0.0,
        (g: ModeGroup, b: seq<real>) => g.(t60 := b));
    }

    /**
     * `setNumModesToProcess`: render only the first `ceil(n / vecSize)` groups,
     * mask the amplitudes of modes from `n` on, and reset the groups no longer
     * rendered so that they hold no energy if they are brought back.
     */
    method SetNumModesToProcess(newNumModesToProcess: nat)
      requires Valid() && newNumModesToProcess <= maxNumModes
      modifies this, modes
      ensures Valid()
      ensures numModesToProcess == newNumModesToProcess
      ensures numVecModesToProcess * vecSize >= newNumModesToProcess
      ensures numVecModesToProcess == 0 || (numVecModesToProcess - 1) * vecSize < newNumModesToProcess
      ensures amplitudeData == old(amplitudeData) && amplitudeNormalizationFactor == old(amplitudeNormalizationFactor)
      ensures maxFreq == old(maxFreq)
      ensures AmplitudesMasked()
      ensures forall i :: 0 <= i < numVecModesToProcess ==> modes[i] == old(modes[i]).(amp := modes[i].amp)
      ensures forall i :: numVecModesToProcess <= i < modes.Length ==> modes[i] == ResetGroup(old(modes[i]).(amp := modes[i].amp))
    {
      numModesToProcess := newNumModesToProcess;
      numVecModesToProcess := CeilDiv(newNumModesToProcess, vecSize);
      CeilDivMonotonic(newNumModesToProcess, maxNumModes, vecSize);
      CeilDivIsLeast(newNumModesToProcess, vecSize);
      SetModeAmplitudesInternal();
      ghost var masked := modes[..];
      var modeIndex := numVecModesToProcess;
      while modeIndex < maxNumVecModes
        modifies modes
        invariant numVecModesToProcess <= modeIndex <= maxNumVecModes
        invariant forall i :: 0 <= i < modes.Length ==> modes[i] == if numVecModesToProcess <= i < modeIndex then ResetGroup(masked[i]) else masked[i]
      {
        modes[modeIndex] := ResetGroup(modes[modeIndex]);
        modeIndex := modeIndex + 1;
      }
      LanesMaskedKeptByAmplitudes(masked, modes[..], vecSize, amplitudeData, numModesToProcess, amplitudeNormalizationFactor);
    }

    /**
     * `prepare`: frequencies above `0.495 * sampleRate` will be cut, the render
     * buffer gets one channel of `samplesPerBlock` samples, and every group is
     * prepared at the sample rate.
     */
    method Prepare(sampleRate: real, samplesPerBlock: nat)
      requires Valid() && samplesPerBlock > 0
      modifies this, modes, renderBuffer
      ensures Valid() && fresh(renderBuffer.Repr - {renderBuffer})
      ensures maxFreq == 0.495 * sampleRate
      ensures renderBuffer.allocatedSamples == samplesPerBlock && |renderBuffer.rawData| == 1
      ensures renderBuffer.currentNumChannels == 1 && renderBuffer.currentNumSamples == samplesPerBlock
      ensures renderBuffer.hasBeenCleared
      ensures forall i :: 0 <= i < samplesPerBlock ==> renderBuffer.rawData[0][i] == 0.0
      ensures forall i :: 0 <= i < modes.Length ==> modes[i] == PrepareGroup(old(modes[i]), sampleRate)
      ensures amplitudeData == old(amplitudeData) && amplitudeNormalizationFactor == old(amplitudeNormalizationFactor)
      ensures numModesToProcess == old(numModesToProcess) && numVecModesToProcess == old(numVecModesToProcess)
    {
      maxFreq := 0.495 * sampleRate;
      renderBuffer.SetMaxSize(1, samplesPerBlock);
      var i := 0;
      while i < modes.Length
        modifies modes
        invariant i <= modes.Length
        invariant forall k :: 0 <= k < modes.Length ==> modes[k] == if k < i then PrepareGroup(old(modes[k]), sampleRate) else old(modes[k])
      {
        modes[i] := PrepareGroup(modes[i], sampleRate);
        i := i + 1;
      }
    }

    /** `reset`: every group, rendered or not, back to zero state. */
    method Reset()
      requires Valid()
      modifies modes
      ensures Valid()
      ensures forall i :: 0 <= i < modes.Length ==> modes[i] == ResetGroup(old(modes[i]))
    {
      var i := 0;
      while i < modes.Length
        invariant i <= modes.Length
        invariant forall k :: 0 <= k < modes.Length ==> modes[k] == if k < i then ResetGroup(old(modes[k])) else old(modes[k])
      {
        modes[i] := ResetGroup(modes[i]);
        i := i + 1;
      }
    }

    /** The inner loop of rendering: run group `gi` over the block, adding its lane sums into `render`. */
    method RenderGroup(render: array<real>, block: seq<real>, gi: nat, modulate: Modulator)
      requires gi < modes.Length && |block| <= render.Length
      modifies render, modes
      ensures forall n :: 0 <= n < render.Length ==>
        render[n] == if n < |block| then old(render[n]) + Run(processSample, modulate, gi, old(modes[gi]), block).out[n] else old(render[n])
      ensures modes[gi] == Run(processSample, modulate, gi, old(modes[gi]), block).group
      ensures forall k :: 0 <= k < modes.Length && k != gi ==> modes[k] == old(modes[k])
    {
      ghost var g0 := modes[gi];
      var n := 0;
      while n < |block|
        invariant n <= |block|
        invariant modes[gi] == Run(processSample, modulate, gi, g0, block[..n]).group
        invariant forall k :: 0 <= k < modes.Length && k != gi ==> modes[k] == old(modes[k])
        invariant forall m :: 0 <= m < render.Length ==>
          render[m] == if m < n then old(render[m]) + Run(processSample, modulate, gi, g0, block).out[m] else old(render[m])
      {
        RunStep(processSample, modulate, gi, g0, block, n);
        modes[gi] := modulate(modes[gi], gi, n);
        var stepped := processSample(modes[gi], block[n]);
        modes[gi] := stepped.0;
        render[n] := render[n] + ReductionSpec.Sum(stepped.1);
        n := n + 1;
      }
      assert block[..n] == block;
    }

    /** The outer loop of rendering: every active group, in order. */
    method RenderActiveGroups(render: array<real>, block: seq<real>, modulate: Modulator)
      requires numVecModesToProcess <= modes.Length && |block| <= render.Length
      modifies render, modes
      ensures forall n :: 0 <= n < |block| ==>
        render[n] == old(render[n]) + Mix(processSample, modulate, old(modes[..numVecModesToProcess]), block)[n]
      ensures forall n :: |block| <= n < render.Length ==> render[n] == old(render[n])
      ensures forall gi :: 0 <= gi < numVecModesToProcess ==> modes[gi] == Run(processSample, modulate, gi, old(modes[gi]), block).group
      ensures forall gi :: numVecModesToProcess <= gi < modes.Length ==> modes[gi] == old(modes[gi])
    {
      ghost var groups := modes[..];
      var modeIdx := 0;
      while modeIdx < numVecModesToProcess
        invariant modeIdx <= numVecModesToProcess
        invariant forall n :: 0 <= n < |block| ==> render[n] == old(render[n]) + Mix(processSample, modulate, groups[..modeIdx], block)[n]
        invariant forall n :: |block| <= n < render.Length ==> render[n] == old(render[n])
        invariant forall gi :: 0 <= gi < modeIdx ==> modes[gi] == Run(processSample, modulate, gi, groups[gi], block).group
        invariant forall gi :: modeIdx <= gi < modes.Length ==> modes[gi] == groups[gi]
      {
        assert groups[..modeIdx + 1][..modeIdx] == groups[..modeIdx];
        RenderGroup(render, block, modeIdx, modulate);
        modeIdx := modeIdx + 1;
      }
      assert groups[..numVecModesToProcess] == old(modes[..numVecModesToProcess]);
    }

    /**
     * `process`: size the render buffer to the block, clear it, and add every
     * active group's lane sums into it sample by sample. Groups past
     * `numVecModesToProcess` do not advance; with none active the output is silence.
     */
    method Process(block: seq<real>)
      requires Valid() && |block| <= renderBuffer.allocatedSamples
      modifies modes, renderBuffer.Repr
      ensures Valid() && renderBuffer.Repr == old(renderBuffer.Repr) && renderBuffer.rawData == old(renderBuffer.rawData)
      ensures renderBuffer.currentNumChannels == 1 && renderBuffer.currentNumSamples == |block|
      ensures forall n :: 0 <= n < |block| ==>
        renderBuffer.rawData[0][n] == Mix(processSample, Unmodulated, old(modes[..numVecModesToProcess]), block)[n]
      ensures numVecModesToProcess == 0 ==> forall n :: 0 <= n < |block| ==> renderBuffer.rawData[0][n] == 0.0
      ensures forall gi :: 0 <= gi < numVecModesToProcess ==> modes[gi] == Run(processSample, Unmodulated, gi, old(modes[gi]), block).group
      ensures forall gi :: numVecModesToProcess <= gi < modes.Length ==> modes[gi] == old(modes[gi])
    {
      ProcessWithModulation(block, Unmodulated);
    }

    /**
     * `processWithModulation`: as `process`, but before each sample of each
     * active group the modulator is applied to that group.
     */
    method ProcessWithModulation(block: seq<real>, modulator: Modulator)
      requires Valid() && |block| <= renderBuffer.allocatedSamples
      modifies modes, renderBuffer.Repr
      ensures Valid() && renderBuffer.Repr == old(renderBuffer.Repr) && renderBuffer.rawData == old(renderBuffer.rawData)
      ensures renderBuffer.currentNumChannels == 1 && renderBuffer.currentNumSamples == |block|
      ensures forall n :: 0 <= n < |block| ==>
        renderBuffer.rawData[0][n] == Mix(processSample, modulator, old(modes[..numVecModesToProcess]), block)[n]
      ensures numVecModesToProcess == 0 ==> forall n :: 0 <= n < |block| ==> renderBuffer.rawData[0][n] == 0.0
      ensures forall gi :: 0 <= gi < numVecModesToProcess ==> modes[gi] == Run(processSample, modulator, gi, old(modes[gi]), block).group
      ensures forall gi :: numVecModesToProcess <= gi < modes.Length ==> modes[gi] == old(modes[gi])
    {
      renderBuffer.SetCurrentSize(1, |block|);
      renderBuffer.Clear();
      var renderPtr := renderBuffer.GetWritePointer(0);
      RenderActiveGroups(renderPtr, block, modulator);
    }
  }
}
