/** `OptionSet.elements()` for an option set whose raw value is a
    fixed-width integer of `width` bits: the sequence of the set's one-bit
    members, lowest bit first. */
module OptionSetElements {
  import opened Wrappers
  import opened Bitwise

  /** Every bit of `remaining` below `index` has been taken out, and the
      bits from `index` up are those of `rawValue`. */
  ghost predicate BitsTaken(rawValue: nat, remaining: nat, index: nat) {
    && (forall j: nat :: j < index ==> !Bit(remaining, j))
    && (forall j: nat :: index <= j ==> Bit(remaining, j) == Bit(rawValue, j))
  }

  /** The values yielded so far are `2^p` for set bits `p` of `rawValue`
      below `index`, in strictly increasing order of `p`. */
  ghost predicate YieldedBits(rawValue: nat, index: nat, yielded: seq<nat>, positions: seq<nat>) {
    && |positions| == |yielded|
    && (forall k :: 0 <= k < |yielded| ==>
          yielded[k] == Pow2(positions[k]) && positions[k] < index && Bit(rawValue, positions[k]))
    && (forall k, l :: 0 <= k < l < |positions| ==> positions[k] < positions[l])
  }

  /** The yielded bits, all below `2^index`, and the remaining bits make up
      `rawValue`, and so do their counts. */
  ghost predicate Accounted(rawValue: nat, remaining: nat, index: nat, yielded: seq<nat>) {
    && OrAll(yielded) < Pow2(index)
    && OrAll(yielded) + remaining == rawValue
    && PopCount(rawValue) == |yielded| + PopCount(remaining)
  }

  /** What holds of the iteration state between probes, with the mask
      `2^index` (`0` once the doubling has passed the top bit). */
  ghost predicate Progress(width: nat, rawValue: nat, remaining: nat, mask: nat, index: nat,
                           yielded: seq<nat>, positions: seq<nat>)
  {
    && 1 <= width && rawValue < Pow2(width)
    && index <= width
    && mask == (if index < width then Pow2(index) else 0)
    && remaining < Pow2(width)
    && BitsTaken(rawValue, remaining, index)
    && YieldedBits(rawValue, index, yielded, positions)
    && Accounted(rawValue, remaining, index, yielded)
  }

  /** The state `elements()` starts from. */
  lemma ProgressStart(width: nat, rawValue: nat)
    requires 1 <= width && rawValue < Pow2(width)
    ensures Progress(width, rawValue, rawValue, 1, 0, [], [])
  {
  }

  /** Some bits remain only while the mask has not passed the top bit. */
  lemma RemainingBelowWidth(width: nat, rawValue: nat, remaining: nat, mask: nat, index: nat,
                            yielded: seq<nat>, positions: seq<nat>)
    requires Progress(width, rawValue, remaining, mask, index, yielded, positions)
    requires remaining != 0
    ensures index < width && mask == Pow2(index)
  {
    if index == width {
      NoBitsMeansZero(remaining, width);
    }
  }

  /** The probe finds bit `index` clear: doubling the mask keeps the progress. */
  lemma SkipBit(width: nat, rawValue: nat, remaining: nat, mask: nat, index: nat,
                yielded: seq<nat>, positions: seq<nat>)
    requires Progress(width, rawValue, remaining, mask, index, yielded, positions)
    requires index < width && mask == Pow2(index) && And(remaining, mask) == 0
    ensures mask < Pow2(width)
    ensures Progress(width, rawValue, remaining, WrappingDouble(width, mask), index + 1, yielded, positions)
  {
    AndPow2(remaining, index);
    WrappingDoublePow2(width, index);
    Pow2Increasing(index, index + 1);
  }

  /** Clearing bit `index` leaves every bit up to it clear and the rest as they were. */
  lemma TakeBitBits(rawValue: nat, remaining: nat, index: nat)
    requires BitsTaken(rawValue, remaining, index) && Bit(remaining, index)
    ensures Pow2(index) <= remaining
    ensures BitsTaken(rawValue, remaining - Pow2(index), index + 1)
  {
    ClearedBits(remaining, index);
    var remaining' := remaining - Pow2(index);
    forall j: nat | j < index + 1 ensures !Bit(remaining', j) {
      assert Bit(remaining', j) == (Bit(remaining, j) && j != index);
    }
    forall j: nat | index + 1 <= j ensures Bit(remaining', j) == Bit(rawValue, j) {
      assert Bit(remaining', j) == (Bit(remaining, j) && j != index);
    }
  }

  /** Appending the set bit `2^index` keeps the yielded values single, set and increasing. */
  lemma TakeBitYielded(rawValue: nat, index: nat, yielded: seq<nat>, positions: seq<nat>)
    requires YieldedBits(rawValue, index, yielded, positions) && Bit(rawValue, index)
    ensures YieldedBits(rawValue, index + 1, yielded + [Pow2(index)], positions + [index])
  {
  }

  /** Moving bit `index` from the remaining bits to the yielded ones keeps the totals. */
  lemma TakeBitAccounted(rawValue: nat, remaining: nat, index: nat, yielded: seq<nat>)
    requires Accounted(rawValue, remaining, index, yielded) && Bit(remaining, index)
    ensures Pow2(index) <= remaining
    ensures Accounted(rawValue, remaining - Pow2(index), index + 1, yielded + [Pow2(index)])
  {
    var bit := Pow2(index);
    PopCountClear(remaining, index);
    BelowPow2HasNoBit(OrAll(yielded), index);
    OrPow2(OrAll(yielded), index);
    OrAllAppend(yielded, bit);
  }

  /** The probe finds bit `index` set: clearing it with `remaining & ~mask`,
      yielding the mask and doubling it keeps the progress. */
  lemma TakeBit(width: nat, rawValue: nat, remaining: nat, mask: nat, index: nat,
                yielded: seq<nat>, positions: seq<nat>)
    requires Progress(width, rawValue, remaining, mask, index, yielded, positions)
    requires index < width && mask == Pow2(index) && And(remaining, mask) != 0
    ensures mask < Pow2(width)
    ensures And(remaining, Not(width, mask)) == remaining - mask
    ensures Progress(width, rawValue, And(remaining, Not(width, mask)), WrappingDouble(width, mask), index + 1,
                     yielded + [mask], positions + [index])
  {
    AndPow2(remaining, index);
    ClearBit(width, remaining, index);
    PopCountClear(remaining, index);
    WrappingDoublePow2(width, index);
    TakeBitBits(rawValue, remaining, index);
    TakeBitYielded(rawValue, index, yielded, positions);
    TakeBitAccounted(rawValue, remaining, index, yielded);
  }

  /** Once no bits remain, the yielded values are exactly the one-bit
      members of `rawValue`, lowest first. */
  lemma Finished(width: nat, rawValue: nat, mask: nat, index: nat, yielded: seq<nat>, positions: seq<nat>)
    requires Progress(width, rawValue, 0, mask, index, yielded, positions)
    ensures forall k :: 0 <= k < |yielded| ==>
              SingleBit(yielded[k]) && yielded[k] < Pow2(width) && And(rawValue, yielded[k]) == yielded[k]
    ensures forall k, l :: 0 <= k < l < |yielded| ==> yielded[k] < yielded[l]
    ensures OrAll(yielded) == rawValue
    ensures |yielded| == PopCount(rawValue)
    ensures rawValue == 0 <==> yielded == []
  {
    forall k | 0 <= k < |yielded|
      ensures SingleBit(yielded[k]) && yielded[k] < Pow2(width) && And(rawValue, yielded[k]) == yielded[k]
    {
      Pow2IsSingleBit(positions[k]);
      Pow2Increasing(positions[k], width);
      AndPow2(rawValue, positions[k]);
    }
    forall k, l | 0 <= k < l < |yielded| ensures yielded[k] < yielded[l] {
      Pow2Increasing(positions[k], positions[l]);
    }
    if yielded == [] {
      assert OrAll(yielded) == 0;
    }
  }

  /** The state `elements()` creates and its iterators share: the bits not
      yet yielded and the mask probing the next bit. Every iterator made from
      the returned sequence advances this same state, so once one traversal
      has finished, another yields nothing. */
  class ElementSequence {
    const width: nat
    ghost const rawValue: nat
    var remainingBits: nat
    var bitMask: nat
    /** `bitMask` is `2^index`, or `0` once the doubling has wrapped around. */
    ghost var index: nat
    /** What the iterators have yielded so far, and the bit of each. */
    ghost var yielded: seq<nat>
    ghost var positions: seq<nat>

    ghost predicate Valid()
      reads this
    {
      Progress(width, rawValue, remainingBits, bitMask, index, yielded, positions)
    }

    /** `elements()`: `remainingBits = rawValue`, `bitMask = 1`. */
    constructor (width: nat, rawValue: nat)
      requires 1 <= width && rawValue < Pow2(width)
      ensures Valid()
      ensures this.width == width && this.rawValue == rawValue
      ensures remainingBits == rawValue && bitMask == 1
      ensures index == 0 && yielded == [] && positions == []
    {
      this.width := width;
      this.rawValue := rawValue;
      remainingBits := rawValue;
      bitMask := 1;
      index := 0;
      yielded := [];
      positions := [];
      ProgressStart(width, rawValue);
    }

    /** The probe found the bit under the mask set: clear it
        (`remainingBits & ~bitMask`), record it as yielded, and double the
        mask (the `defer`). */
    method TakeMasked()
      requires Valid() && index < width && bitMask == Pow2(index)
      requires And(remainingBits, bitMask) != 0
      modifies this
      ensures Valid()
      ensures remainingBits == old(remainingBits) - old(bitMask)
      ensures yielded == old(yielded) + [old(bitMask)]
      ensures index == old(index) + 1
      ensures old(bitMask) < Pow2(width) && bitMask == WrappingDouble(width, old(bitMask))
    {
      TakeBit(width, rawValue, remainingBits, bitMask, index, yielded, positions);
      remainingBits, bitMask, index, yielded, positions :=
        And(remainingBits, Not(width, bitMask)), WrappingDouble(width, bitMask), index + 1,
        yielded + [bitMask], positions + [index];
    }

    /** The probe found the bit under the mask clear: only double the mask
        (the `defer`). */
    method SkipMasked()
      requires Valid() && index < width && bitMask == Pow2(index)
      requires And(remainingBits, bitMask) == 0
      modifies this
      ensures Valid()
      ensures remainingBits == old(remainingBits) && yielded == old(yielded)
      ensures index == old(index) + 1
      ensures old(bitMask) < Pow2(width) && bitMask == WrappingDouble(width, old(bitMask))
    {
      SkipBit(width, rawValue, remainingBits, bitMask, index, yielded, positions);
      bitMask, index := WrappingDouble(width, bitMask), index + 1;
    }

    /** One pass of the `while` loop in the iterator's `next()`: test the
        bit under the mask and yield it when it is set. */
    method Probe() returns (r: Option<nat>)
      requires Valid() && remainingBits != 0
      modifies this
      ensures Valid()
      ensures index == old(index) + 1
      ensures old(bitMask) < Pow2(width) && bitMask == WrappingDouble(width, old(bitMask))
      ensures r.Some? <==> And(old(remainingBits), old(bitMask)) != 0
      ensures r.Some? ==> r.value == old(bitMask)
      ensures r.None? ==> remainingBits == old(remainingBits) && yielded == old(yielded)
      ensures r.Some? ==> yielded == old(yielded) + [r.value] && remainingBits == old(remainingBits) - r.value
    {
      RemainingBelowWidth(width, rawValue, remainingBits, bitMask, index, yielded, positions);
      if And(remainingBits, bitMask) != 0 {
        r := Some(bitMask);
        TakeMasked();
      } else {
        r := None;
        SkipMasked();
      }
    }

    /** One call of the iterator's `next()`: probe bits upward from the mask
        and return the first set bit, cleared; `nil` once no bits remain. */
    method Next() returns (r: Option<nat>)
      requires Valid()
      modifies this
      ensures Valid()
      ensures r.None? <==> old(remainingBits) == 0
      ensures r.None? ==> remainingBits == old(remainingBits) && yielded == old(yielded)
      ensures r.None? ==> bitMask == old(bitMask) && index == old(index)
      ensures r.Some? ==> yielded == old(yielded) + [r.value]
                          && remainingBits == old(remainingBits) - r.value && old(index) < index
      ensures r.Some? ==> r.value < Pow2(width) && bitMask == WrappingDouble(width, r.value)
    {
      while remainingBits != 0
        invariant Valid()
        invariant remainingBits == old(remainingBits) && yielded == old(yielded)
        invariant old(remainingBits) == 0 ==> bitMask == old(bitMask) && index == old(index)
        decreases width - index
      {
        r := Probe();
        if r.Some? {
          return;
        }
      }
      return None;
    }

    /** A complete `for`-`in` traversal: a fresh iterator is advanced until
        it returns `nil`, collecting what it yields. */
    method Drain() returns (bits: seq<nat>)
      requires Valid()
      modifies this
      ensures Valid()
      ensures remainingBits == 0
      ensures yielded == old(yielded) + bits
      ensures old(remainingBits) == 0 ==> bits == []
    {
      bits := [];
      while remainingBits != 0
        invariant Valid()
        invariant yielded == old(yielded) + bits
        invariant old(remainingBits) == 0 ==> bits == []
        decreases width - index
      {
        var next := Next();
        bits := bits + [next.value];
      }
      var last := Next();
      assert last.None?;
    }
  }

  /** `for bit in options.elements()`: the members that one traversal of
      a fresh sequence yields are exactly the set bits of the raw value,
      each as a one-bit value and lowest first. */
  method Elements(width: nat, rawValue: nat) returns (bits: seq<nat>)
    requires 1 <= width && rawValue < Pow2(width)
    ensures forall k :: 0 <= k < |bits| ==>
              SingleBit(bits[k]) && bits[k] < Pow2(width) && And(rawValue, bits[k]) == bits[k]
    ensures forall k, l :: 0 <= k < l < |bits| ==> bits[k] < bits[l]
    ensures OrAll(bits) == rawValue
    ensures |bits| == PopCount(rawValue)
    ensures rawValue == 0 <==> bits == []
  {
    var s := new ElementSequence(width, rawValue);
    bits := s.Drain();
    assert s.yielded == bits;
    Finished(s.width, s.rawValue, s.bitMask, s.index, s.yielded, s.positions);
  }

  /** Two traversals of the same `elements()` sequence: the iterators share
      the captured state, so the second yields nothing. */
  method ElementsTwice(width: nat, rawValue: nat) returns (first: seq<nat>, second: seq<nat>)
    requires 1 <= width && rawValue < Pow2(width)
    ensures OrAll(first) == rawValue && |first| == PopCount(rawValue)
    ensures second == []
  {
    var s := new ElementSequence(width, rawValue);
    first := s.Drain();
    assert s.yielded == first;
    Finished(s.width, s.rawValue, s.bitMask, s.index, s.yielded, s.positions);
    second := s.Drain();
  }
}
