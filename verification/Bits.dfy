/**
  The bits of a byte, number 0 being the least significant. The bit operations
  have names of their own, and each is described by what it does to one bit.
 */
module Bits {
  import opened ByteStrings
  import opened BitCast

  type BitIndex = b: nat | b < 8

  function OfByte(n: Byte): bv8 { n as bv8 }

  function ToByte(x: bv8): Byte { x as int }

  function Or(a: bv8, b: bv8): bv8 { a | b }

  function And(a: bv8, b: bv8): bv8 { a & b }

  function Xor(a: bv8, b: bv8): bv8 { a ^ b }

  function Not(a: bv8): bv8 { !a }

  function Mask(b: BitIndex): bv8 {
    if b == 0 then 1 else if b == 1 then 2 else if b == 2 then 4 else if b == 3 then 8
    else if b == 4 then 16 else if b == 5 then 32 else if b == 6 then 64 else 128
  }

  /** Shifts by any number of places: beyond the width nothing is left. */
  function ShiftRight(x: bv8, n: nat): bv8 {
    if n == 0 then x else if n == 1 then x >> 1 else if n == 2 then x >> 2 else if n == 3 then x >> 3
    else if n == 4 then x >> 4 else if n == 5 then x >> 5 else if n == 6 then x >> 6 else if n == 7 then x >> 7 else 0
  }

  function ShiftLeft(x: bv8, n: nat): bv8 {
    if n == 0 then x else if n == 1 then x << 1 else if n == 2 then x << 2 else if n == 3 then x << 3
    else if n == 4 then x << 4 else if n == 5 then x << 5 else if n == 6 then x << 6 else if n == 7 then x << 7 else 0
  }

  predicate HasBit(x: bv8, j: BitIndex) { x & Mask(j) != 0 }

  predicate Bit(n: Byte, b: BitIndex) { HasBit(OfByte(n), b) }

  function Pow2(n: nat): (r: nat)
    ensures r > 0
  {
    if n == 0 then 1 else 2 * Pow2(n - 1)
  }

  /** The bits of a byte are the digits of its number. */
  lemma BitIsDigit(n: Byte, b: BitIndex)
    ensures Bit(n, b) <==> n / Pow2(b) % 2 == 1
  {
    assert Pow2(1) == 2 && Pow2(2) == 4 && Pow2(3) == 8 && Pow2(4) == 16 && Pow2(5) == 32;
    assert Pow2(6) == 64 && Pow2(7) == 128;
  }

  lemma ByteOf(x: bv8)
    ensures OfByte(ToByte(x)) == x
  {
  }

  lemma ToOf(n: Byte)
    ensures ToByte(OfByte(n)) == n
  {
    ThroughBits(n);
  }

  lemma OfByteInjective(m: Byte, n: Byte)
    requires OfByte(m) == OfByte(n)
    ensures m == n
  {
    hide OfByte, ToByte;
    ToOf(m);
    ToOf(n);
  }

  lemma OrAt(a: bv8, b: bv8, j: BitIndex)
    ensures HasBit(Or(a, b), j) <==> HasBit(a, j) || HasBit(b, j)
  {
    var m := Mask(j);
    assert (a | b) & m == (a & m) | (b & m);
  }

  lemma AndAt(a: bv8, b: bv8, j: BitIndex)
    ensures HasBit(And(a, b), j) <==> HasBit(a, j) && HasBit(b, j)
  {
  }

  lemma MaskedOrNot(a: bv8, j: BitIndex)
    ensures a & Mask(j) == 0 || a & Mask(j) == Mask(j)
  {
  }

  lemma XorAt(a: bv8, b: bv8, j: BitIndex)
    ensures HasBit(Xor(a, b), j) <==> HasBit(a, j) != HasBit(b, j)
  {
    var m := Mask(j);
    assert (a ^ b) & m == (a & m) ^ (b & m);
    MaskedOrNot(a, j);
    MaskedOrNot(b, j);
  }

  lemma NotAt(a: bv8, j: BitIndex)
    ensures HasBit(Not(a), j) <==> !HasBit(a, j)
  {
  }

  lemma MaskAt(b: BitIndex, j: BitIndex)
    ensures HasBit(Mask(b), j) <==> b == j
  {
  }

  lemma ShiftRightAt(x: bv8, n: nat, j: BitIndex)
    ensures HasBit(ShiftRight(x, n), j) <==> n + j < 8 && HasBit(x, n + j)
  {
  }

  lemma ShiftLeftAt(x: bv8, n: nat, j: BitIndex)
    ensures HasBit(ShiftLeft(x, n), j) <==> n <= j && HasBit(x, j - n)
  {
  }

  lemma SameBits(a: bv8, b: bv8)
    requires forall j: BitIndex :: HasBit(a, j) == HasBit(b, j)
    ensures a == b
  {
    assert HasBit(a, 0) == HasBit(b, 0) && HasBit(a, 1) == HasBit(b, 1) && HasBit(a, 2) == HasBit(b, 2)
      && HasBit(a, 3) == HasBit(b, 3);
    assert HasBit(a, 4) == HasBit(b, 4) && HasBit(a, 5) == HasBit(b, 5) && HasBit(a, 6) == HasBit(b, 6)
      && HasBit(a, 7) == HasBit(b, 7);
  }

  // ---- Setting and clearing one bit --------------------------------------

  function SetBit(n: Byte, b: BitIndex): Byte { ToByte(Or(OfByte(n), Mask(b))) }

  function ClearBit(n: Byte, b: BitIndex): Byte { ToByte(And(OfByte(n), Not(Mask(b)))) }

  lemma SetBitAt(n: Byte, b: BitIndex, c: BitIndex)
    ensures Bit(SetBit(n, b), c) <==> b == c || Bit(n, c)
    ensures Bit(ClearBit(n, b), c) <==> b != c && Bit(n, c)
  {
    hide HasBit, OfByte, ToByte, Or, And, Not, Mask;
    var x := OfByte(n);
    ByteOf(Or(x, Mask(b)));
    ByteOf(And(x, Not(Mask(b))));
    OrAt(x, Mask(b), c);
    NotAt(Mask(b), c);
    AndAt(x, Not(Mask(b)), c);
    MaskAt(b, c);
  }

  lemma ZeroHasNoBit(b: BitIndex)
    ensures !Bit(0, b)
  {
  }

  lemma LowHasNoTopBit(n: Byte)
    requires n < 128
    ensures !Bit(n, 7)
  {
    var x := n as bv8;
    ThroughBits(n);
    assert x as int < 128;
    assert x < 128;
  }
}
