/**
 * `chowdsp::Buffer`: per-channel sample storage allocated once by `setMaxSize`,
 * with an active region of `currentNumChannels` by `currentNumSamples` that can
 * shrink and grow inside the allocation without reallocating, and a
 * `hasBeenCleared` flag that lets `clear` skip work when nothing can have been
 * written since the last clear.
 */
module Buffers {

  /**
   * The cells `setCurrentSize` zero-fills when the active region changes from
   * `oldChannels` by `oldSamples` to `newChannels` by `newSamples`: the new
   * samples of the old channels, and all active samples of the new channels.
   */
  predicate Exposed(ch: nat, i: nat, oldChannels: nat, oldSamples: nat, newChannels: nat, newSamples: nat)
  {
    || (ch < oldChannels && oldSamples <= i < newSamples)
    || (oldChannels <= ch < newChannels && i < newSamples)
  }

  predicate InRegion(ch: nat, i: nat, numChannels: nat, numSamples: nat)
  {
    ch < numChannels && i < numSamples
  }

  /**
   * The zero-filled cells cover everything that becomes active and touch nothing
   * that was active before.
   */
  lemma ExposedCoversGrowth(ch: nat, i: nat, oldChannels: nat, oldSamples: nat, newChannels: nat, newSamples: nat)
    ensures InRegion(ch, i, newChannels, newSamples) && !InRegion(ch, i, oldChannels, oldSamples)
            ==> Exposed(ch, i, oldChannels, oldSamples, newChannels, newSamples)
    ensures Exposed(ch, i, oldChannels, oldSamples, newChannels, newSamples) ==> !InRegion(ch, i, oldChannels, oldSamples)
  {
  }

  /** `buffer_detail::clear` for one channel: zero samples `from` up to `to`. */
  method ClearChannel(a: array<real>, from: nat, to: nat)
    requires to <= a.Length
    modifies a
    ensures forall i :: 0 <= i < a.Length ==> a[i] == if from <= i < to then 0.0 else old(a[i])
  {
    var i := from;
    while i < to
      invariant from <= i || to <= from
      invariant forall k :: 0 <= k < a.Length ==> a[k] == if from <= k < i && k < to then 0.0 else old(a[k])
    {
      a[i] := 0.0;
      i := i + 1;
    }
  }

  class Buffer {
    /** The number of channel pointers the buffer has room for (a template constant). */
    const maxNumChannels: nat
    /** One array per allocated channel. */
    var rawData: seq<array<real>>
    /** `channelPointers`: the allocated channels, then null. */
    var channelPointers: seq<array?<real>>
    var currentNumChannels: nat
    var currentNumSamples: nat
    var hasBeenCleared: bool
    /** The length of every channel array. */
    ghost var allocatedSamples: nat
    ghost var Repr: set<object>

    /** Every sample of the active region is zero. */
    ghost predicate ActiveRegionIsZero()
      reads this, rawData
      requires currentNumChannels <= |rawData|
      requires forall ch :: 0 <= ch < |rawData| ==> currentNumSamples <= rawData[ch].Length
    {
      forall ch, i :: 0 <= ch < currentNumChannels && 0 <= i < currentNumSamples ==> rawData[ch][i] == 0.0
    }

    ghost predicate Valid()
      reads this, Repr
    {
      && this in Repr
      && (forall ch :: 0 <= ch < |rawData| ==> rawData[ch] in Repr && rawData[ch].Length == allocatedSamples)
      && (forall ch, ch' :: 0 <= ch < ch' < |rawData| ==> rawData[ch] != rawData[ch'])
      && |channelPointers| == maxNumChannels && |rawData| <= maxNumChannels
      && (forall ch :: 0 <= ch < |rawData| ==> channelPointers[ch] == rawData[ch])
      && (forall ch :: |rawData| <= ch < maxNumChannels ==> channelPointers[ch] == null)
      && currentNumChannels <= |rawData| && currentNumSamples <= allocatedSamples
      && (hasBeenCleared ==> ActiveRegionIsZero())
    }

    /** `Buffer (numChannels, numSamples)`: allocate through `setMaxSize`. */
    constructor(maxNumChannels: nat, numChannels: nat, numSamples: nat)
      requires numChannels < maxNumChannels && numSamples > 0
      ensures Valid() && fresh(Repr)
      ensures this.maxNumChannels == maxNumChannels
      ensures |rawData| == currentNumChannels == if numChannels == 0 then 1 else numChannels
      ensures allocatedSamples == currentNumSamples == numSamples && hasBeenCleared
    {
      this.maxNumChannels := maxNumChannels;
      rawData := [];
      channelPointers := seq(maxNumChannels, _ => null);
      currentNumChannels := 0;
      currentNumSamples := 0;
      hasBeenCleared := true;
      allocatedSamples := 0;
      Repr := {this};
      new;
      SetMaxSize(numChannels, numSamples);
    }

    /**
     * `setMaxSize`: allocate `max (numChannels, 1)` zeroed channels of
     * `numSamples` samples, point the first channel pointers at them and null the
     * rest, mark the buffer cleared and make the whole allocation active.
     */
    method SetMaxSize(numChannels: nat, numSamples: nat)
      requires numChannels < maxNumChannels && numSamples > 0
      modifies this
      ensures Valid() && fresh(Repr - {this})
      ensures |rawData| == currentNumChannels == if numChannels == 0 then 1 else numChannels
      ensures allocatedSamples == currentNumSamples == numSamples
      ensures hasBeenCleared
      ensures forall ch, i :: 0 <= ch < |rawData| && 0 <= i < allocatedSamples ==> rawData[ch][i] == 0.0
      ensures forall ch :: |rawData| <= ch < maxNumChannels ==> channelPointers[ch] == null
    {
      var channels := if numChannels < 1 then 1 else numChannels;
      rawData := [];
      hasBeenCleared := true;
      currentNumChannels := 0;
      currentNumSamples := 0;
      allocatedSamples := numSamples;
      Repr := {this};
      while |rawData| < channels
        invariant |rawData| <= channels
        invariant hasBeenCleared && currentNumChannels == 0 && currentNumSamples == 0 && allocatedSamples == numSamples
        invariant this in Repr && fresh(Repr - {this})
        invariant forall ch :: 0 <= ch < |rawData| ==> rawData[ch] in Repr && rawData[ch].Length == numSamples
        invariant forall ch, ch' :: 0 <= ch < ch' < |rawData| ==> rawData[ch] != rawData[ch']
        invariant forall ch, i :: 0 <= ch < |rawData| && 0 <= i < numSamples ==> rawData[ch][i] == 0.0
      {
        var channel := new real[numSamples](_ => 0.0);
        rawData := rawData + [channel];
        Repr := Repr + {channel};
      }
      var data := rawData;
      channelPointers := seq(maxNumChannels, ch requires 0 <= ch < maxNumChannels => if ch < channels then data[ch] else null);
      SetCurrentSize(channels, numSamples);
    }

    /**
     * `setCurrentSize`: zero-fill the cells that become active (see `Exposed`) and
     * record the new size. The size must fit the allocation.
     */
    method SetCurrentSize(numChannels: nat, numSamples: nat)
      requires Valid() && numChannels <= |rawData| && numSamples <= allocatedSamples
      modifies Repr
      ensures Valid() && Repr == old(Repr) && rawData == old(rawData) && channelPointers == old(channelPointers)
      ensures allocatedSamples == old(allocatedSamples) && hasBeenCleared == old(hasBeenCleared)
      ensures currentNumChannels == numChannels && currentNumSamples == numSamples
      ensures forall ch, i :: 0 <= ch < |rawData| && 0 <= i < allocatedSamples ==>
        rawData[ch][i] == if Exposed(ch, i, old(currentNumChannels), old(currentNumSamples), numChannels, numSamples)
                          then 0.0 else old(rawData[ch][i])
    {
      var increasingNumChannels := numChannels > currentNumChannels;
      var increasingNumSamples := numSamples > currentNumSamples;
      ghost var oldChannels, oldSamples := currentNumChannels, currentNumSamples;
      if increasingNumSamples {
        ClearRegion(0, currentNumChannels, currentNumSamples, numSamples);
      }
      if increasingNumChannels {
        ClearRegion(currentNumChannels, numChannels, 0, numSamples);
      }
      currentNumChannels := numChannels;
      currentNumSamples := numSamples;
      if hasBeenCleared {
        forall ch, i | 0 <= ch < currentNumChannels && 0 <= i < currentNumSamples
          ensures rawData[ch][i] == 0.0
        {
          ExposedCoversGrowth(ch, i, oldChannels, oldSamples, numChannels, numSamples);
        }
      }
    }

    /**
     * `buffer_detail::clear`: zero samples `startSample` up to `endSample` of
     * channels `startChannel` up to `endChannel`. Writing zeros keeps the buffer
     * valid whatever the flag says.
     */
    method ClearRegion(startChannel: nat, endChannel: nat, startSample: nat, endSample: nat)
      requires Valid() && endChannel <= |rawData| && endSample <= allocatedSamples
      modifies Repr - {this}
      ensures Valid()
      ensures forall ch, i :: 0 <= ch < |rawData| && 0 <= i < allocatedSamples ==>
        rawData[ch][i] == if startChannel <= ch < endChannel && startSample <= i < endSample then 0.0 else old(rawData[ch][i])
    {
      var ch := startChannel;
      while ch < endChannel
        invariant startChannel <= ch || endChannel <= startChannel
        invariant Valid()
        invariant forall c, i :: 0 <= c < |rawData| && 0 <= i < allocatedSamples ==>
          rawData[c][i] == if startChannel <= c < ch && c < endChannel && startSample <= i < endSample then 0.0 else old(rawData[c][i])
      {
        ClearChannel(rawData[ch], startSample, endSample);
        ch := ch + 1;
      }
    }

    /** `getWritePointer`: the caller may now write, so the buffer no longer counts as cleared. */
    method GetWritePointer(channel: nat) returns (p: array?<real>)
      requires Valid() && channel < maxNumChannels
      modifies this
      ensures Valid() && !hasBeenCleared
      ensures p == GetReadPointer(channel)
      ensures rawData == old(rawData) && channelPointers == old(channelPointers) && Repr == old(Repr)
      ensures allocatedSamples == old(allocatedSamples)
      ensures currentNumChannels == old(currentNumChannels) && currentNumSamples == old(currentNumSamples)
    {
      hasBeenCleared := false;
      p := channelPointers[channel];
    }

    /** `getReadPointer`: the channel's array when it is allocated, and null otherwise. */
    function GetReadPointer(channel: nat): (p: array?<real>)
      reads this, Repr
      requires Valid() && channel < maxNumChannels
      ensures channel < |rawData| ==> p == rawData[channel]
      ensures channel >= |rawData| ==> p == null
    {
      channelPointers[channel]
    }

    /** `getArrayOfWritePointers`: like `getWritePointer` for every channel at once. */
    method GetArrayOfWritePointers() returns (ps: seq<array?<real>>)
      requires Valid()
      modifies this
      ensures Valid() && !hasBeenCleared
      ensures ps == GetArrayOfReadPointers()
      ensures rawData == old(rawData) && channelPointers == old(channelPointers) && Repr == old(Repr)
      ensures allocatedSamples == old(allocatedSamples)
      ensures currentNumChannels == old(currentNumChannels) && currentNumSamples == old(currentNumSamples)
    {
      hasBeenCleared := false;
      ps := channelPointers;
    }

    /** `getArrayOfReadPointers`: the allocated channels followed by nulls. */
    function GetArrayOfReadPointers(): (ps: seq<array?<real>>)
      reads this, Repr
      requires Valid()
      ensures |ps| == maxNumChannels
      ensures forall ch :: 0 <= ch < |ps| ==> ps[ch] == if ch < |rawData| then rawData[ch] else null
    {
      channelPointers
    }

    /**
     * `clear`: zero the active region and mark the buffer cleared. When it is
     * already marked, nothing is written, and the invariant shows the result is
     * the same as if the region had been zeroed again.
     */
    method Clear()
      requires Valid()
      modifies Repr
      ensures Valid() && hasBeenCleared && Repr == old(Repr) && rawData == old(rawData)
      ensures channelPointers == old(channelPointers) && allocatedSamples == old(allocatedSamples)
      ensures currentNumChannels == old(currentNumChannels) && currentNumSamples == old(currentNumSamples)
      ensures forall ch, i :: 0 <= ch < |rawData| && 0 <= i < allocatedSamples ==>
        rawData[ch][i] == if InRegion(ch, i, currentNumChannels, currentNumSamples) then 0.0 else old(rawData[ch][i])
      ensures old(hasBeenCleared) ==> forall ch, i :: 0 <= ch < |rawData| && 0 <= i < allocatedSamples ==>
        rawData[ch][i] == old(rawData[ch][i])
    {
      if hasBeenCleared {
        return;
      }
      ClearRegion(0, currentNumChannels, 0, currentNumSamples);
      hasBeenCleared := true;
    }
  }
}
