/** The generator of 24-bit peer indices, a linear-feedback shift register
    (device/mod.rs, `IndexLfsr`). */
module PeerIndex {
  import opened Common

  const LFSR_POLY: bv32 := 0xd8_0000

  /** One shift of the register. */
  function Shift(x: bv32): bv32 {
    (x >> 1) ^ ((0 - (x & 1)) & LFSR_POLY)
  }

  /** A nonzero 24-bit value, what the register always holds. */
  predicate InRange(x: bv32) {
    0 < x < 0x100_0000
  }

  lemma ShiftStaysInRange(x: bv32)
    requires InRange(x)
    ensures InRange(Shift(x))
  {
  }

  lemma ShiftInjective(x: bv32, y: bv32)
    requires InRange(x) && InRange(y) && Shift(x) == Shift(y)
    ensures x == y
  {
  }

  /** The register one shift back. */
  function ShiftBack(x: bv32): bv32 {
    if x & 0x80_0000 != 0 then ((x ^ 0xd8_0000) << 1) | 1 else x << 1
  }

  lemma ShiftTaps(x: bv32)
    ensures x & 1 == 0 ==> Shift(x) == x >> 1
    ensures x & 1 == 1 ==> Shift(x) == (x >> 1) ^ 0xd8_0000
  {
  }

  /** A shift can be undone. */
  lemma ShiftUndone(x: bv32)
    requires InRange(x)
    ensures ShiftBack(Shift(x)) == x
  {
    ShiftTaps(x);
  }

  /** The register after `k` shifts. */
  function Register(seed: bv32, k: nat): bv32 {
    if k == 0 then seed else Shift(Register(seed, k - 1))
  }

  lemma {:induction false} RegisterInRange(seed: bv32, k: nat)
    requires InRange(seed)
    ensures InRange(Register(seed, k))
  {
    if k > 0 {
      RegisterInRange(seed, k - 1);
      ShiftStaysInRange(Register(seed, k - 1));
    }
  }

  /** A repetition in the register sequence is a return to the seed. */
  lemma {:induction false} RepetitionReturnsToSeed(seed: bv32, i: nat, j: nat)
    requires InRange(seed) && i <= j && Register(seed, i) == Register(seed, j)
    ensures Register(seed, j - i) == seed
  {
    if i > 0 {
      RegisterInRange(seed, i - 1);
      RegisterInRange(seed, j - 1);
      ShiftInjective(Register(seed, i - 1), Register(seed, j - 1));
      RepetitionReturnsToSeed(seed, i - 1, j - 1);
    }
  }

  /** The index handed out for a register value. */
  function Scramble(x: bv32, mask: bv32): bv32 {
    (x - 1) ^ mask
  }

  lemma ScrambleUndone(x: bv32, mask: bv32)
    ensures (Scramble(x, mask) ^ mask) + 1 == x
  {
  }

  lemma ScrambleIs24Bit(x: bv32, mask: bv32)
    requires InRange(x) && InRange(mask)
    ensures Scramble(x, mask) < 0x100_0000
  {
  }

  lemma XorCancels(a: bv32, b: bv32, mask: bv32)
    requires a ^ mask == b ^ mask
    ensures a == b
  {
  }

  lemma MinusOneCancels(x: bv32, y: bv32)
    requires x - 1 == y - 1
    ensures x == y
  {
  }

  lemma ScrambleInjective(x: bv32, y: bv32, mask: bv32)
    requires Scramble(x, mask) == Scramble(y, mask)
    ensures x == y
  {
    XorCancels(x - 1, y - 1, mask);
    MinusOneCancels(x, y);
  }

  /** Indices as the plain numbers the tables are keyed by. */
  lemma Narrow(x: bv32)
    requires x < 0x100_0000
    ensures x as nat < 0x100_0000
  {
    var z := x as bv24;
    assert z as bv32 == x;
    assert z as nat < 0x100_0000;
    assert z as nat == x as nat;
  }

  lemma NumberInjective(x: bv32, y: bv32)
    requires x as nat == y as nat
    ensures x == y
  {
    assert (x as nat) as bv32 == x;
    assert (y as nat) as bv32 == y;
  }

  /** The generator object.  `issued` is the history of indices returned. */
  class IndexLfsr {
    const initial: bv32
    const mask: bv32
    var lfsr: bv32
    ghost var issued: seq<nat>

    ghost predicate Valid()
      reads this
    {
      && InRange(initial) && InRange(mask)
      && lfsr == Register(initial, |issued|)
      && (forall i :: 0 <= i < |issued| ==> issued[i] == Scramble(Register(initial, i), mask) as nat)
      && (forall i :: 0 < i <= |issued| ==> Register(initial, i) != initial)
    }

    /** Seeded with two random values; the drawing loop retries on zero. */
    constructor (seed: bv32, mask: bv32)
      requires InRange(seed) && InRange(mask)
      ensures Valid() && issued == []
    {
      initial, lfsr, this.mask := seed, seed, mask;
      issued := [];
    }

    /** `None` stands for the assertion that stops the program once the register
        has come round.  Every index returned is 24 bits and new. */
    method Next() returns (index: Option<nat>)
      requires Valid()
      modifies this
      ensures index.Some? ==> Valid() && issued == old(issued) + [index.value]
      ensures index.Some? ==> index.value < 0x100_0000 && index.value !in old(issued)
      ensures index.None? <==> Register(initial, |old(issued)| + 1) == initial
    {
      var value := lfsr;
      lfsr := Shift(lfsr);
      if lfsr == initial {
        return None;
      }
      index := Some(Scramble(value, mask) as nat);
      issued := issued + [index.value];
      IssuedDistinct(initial, mask, |issued|);
    }
  }

  /** Until the register returns to its seed, all indices are 24 bits and
      pairwise distinct. */
  lemma IssuedDistinct(seed: bv32, mask: bv32, n: nat)
    requires InRange(seed) && InRange(mask)
    requires forall i :: 0 < i < n ==> Register(seed, i) != seed
    ensures forall i :: 0 <= i < n ==> Scramble(Register(seed, i), mask) as nat < 0x100_0000
    ensures forall i, j :: 0 <= i < j < n ==>
              Scramble(Register(seed, i), mask) as nat != Scramble(Register(seed, j), mask) as nat
  {
    forall i | 0 <= i < n ensures Scramble(Register(seed, i), mask) as nat < 0x100_0000 {
      RegisterInRange(seed, i);
      ScrambleIs24Bit(Register(seed, i), mask);
      Narrow(Scramble(Register(seed, i), mask));
    }
    forall i, j | 0 <= i < j < n
      ensures Scramble(Register(seed, i), mask) as nat != Scramble(Register(seed, j), mask) as nat
    {
      if Scramble(Register(seed, i), mask) as nat == Scramble(Register(seed, j), mask) as nat {
        NumberInjective(Scramble(Register(seed, i), mask), Scramble(Register(seed, j), mask));
        ScrambleInjective(Register(seed, i), Register(seed, j), mask);
        RepetitionReturnsToSeed(seed, i, j);
        assert false;
      }
    }
  }
}
