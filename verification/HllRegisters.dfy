/** The 16384 six-bit registers of a HyperLogLog sketch, packed into 12288 bytes. */
module HllRegisters {
  import opened ByteStrings
  import opened Bits

  type Block = p: Bytes | |p| == 12288 witness ZeroBlock()

  function ZeroBlock(): (p: Bytes)
    ensures |p| == 12288 && forall i :: 0 <= i < 12288 ==> p[i] == 0
  {
    seq(12288, i => 0)
  }

  type Register = r: nat | r < 16384

  // ---- Two neighbouring bytes --------------------------------------------

  /** Six bits from bit `fb` of a byte on, the rest from the next byte. */
  function TakeBits(x: Byte, y: Byte, fb: BitIndex): Byte {
    ToByte(And(Or(ShiftRight(OfByte(x), fb), ShiftLeft(OfByte(y), 8 - fb)), 63))
  }

  function TakeLast(x: Byte, fb: BitIndex): Byte { ToByte(And(ShiftRight(OfByte(x), fb), 63)) }

  function PutLow(x: Byte, v: Byte, fb: BitIndex): Byte {
    ToByte(Or(And(OfByte(x), Not(ShiftLeft(63, fb))), ShiftLeft(OfByte(v), fb)))
  }

  function PutHigh(y: Byte, v: Byte, fb: BitIndex): Byte {
    ToByte(Or(And(OfByte(y), Not(ShiftRight(63, 8 - fb))), ShiftRight(OfByte(v), 8 - fb)))
  }

  lemma SixBits(j: BitIndex)
    ensures HasBit(63, j) <==> j < 6
  {
  }

  lemma SmallByte(v: Byte, j: BitIndex)
    requires v < 64 && j >= 6
    ensures !HasBit(OfByte(v), j)
  {
    var x := v as bv8;
    assert x < 64;
    assert x & 64 == 0 && x & 128 == 0;
  }

  lemma TakeBitsAt(x: Byte, y: Byte, fb: BitIndex, j: BitIndex)
    requires j < 6
    ensures Bit(TakeBits(x, y, fb), j) <==> if fb + j < 8 then Bit(x, fb + j) else Bit(y, fb + j - 8)
    ensures Bit(TakeLast(x, fb), j) <==> fb + j < 8 && Bit(x, fb + j)
  {
    hide HasBit, OfByte, ToByte, Or, And, Not, Mask, ShiftLeft, ShiftRight;
    var a, b := ShiftRight(OfByte(x), fb), ShiftLeft(OfByte(y), 8 - fb);
    ShiftRightAt(OfByte(x), fb, j);
    ShiftLeftAt(OfByte(y), 8 - fb, j);
    OrAt(a, b, j);
    AndAt(Or(a, b), 63, j);
    AndAt(a, 63, j);
    SixBits(j);
    ByteOf(And(Or(a, b), 63));
    ByteOf(And(a, 63));
  }

  lemma PutLowAt(x: Byte, v: Byte, fb: BitIndex, c: BitIndex)
    requires v < 64
    ensures Bit(PutLow(x, v, fb), c) <==> if fb <= c < fb + 6 then Bit(v, c - fb) else Bit(x, c)
  {
    hide HasBit, OfByte, ToByte, Or, And, Not, Mask, ShiftLeft, ShiftRight;
    var m, w := ShiftLeft(63, fb), ShiftLeft(OfByte(v), fb);
    ShiftLeftAt(63, fb, c);
    ShiftLeftAt(OfByte(v), fb, c);
    if fb <= c {
      SixBits(c - fb);
      if c - fb >= 6 { SmallByte(v, c - fb); }
    }
    NotAt(m, c);
    AndAt(OfByte(x), Not(m), c);
    OrAt(And(OfByte(x), Not(m)), w, c);
    ByteOf(Or(And(OfByte(x), Not(m)), w));
  }

  lemma PutHighAt(y: Byte, v: Byte, fb: BitIndex, c: BitIndex)
    requires v < 64
    ensures Bit(PutHigh(y, v, fb), c) <==> if c + 8 < fb + 6 then Bit(v, c + 8 - fb) else Bit(y, c)
  {
    hide HasBit, OfByte, ToByte, Or, And, Not, Mask, ShiftLeft, ShiftRight;
    var n: nat := 8 - fb;
    var m, w := ShiftRight(63, n), ShiftRight(OfByte(v), n);
    ShiftRightAt(63, n, c);
    ShiftRightAt(OfByte(v), n, c);
    if n + c < 8 {
      SixBits(n + c);
      if n + c >= 6 { SmallByte(v, n + c); }
    }
    NotAt(m, c);
    AndAt(OfByte(y), Not(m), c);
    OrAt(And(OfByte(y), Not(m)), w, c);
    ByteOf(Or(And(OfByte(y), Not(m)), w));
  }

  // ---- Registers ---------------------------------------------------------

  predicate BlockBit(p: Block, k: nat)
    requires k < 98304
  {
    Bit(p[k / 8], k % 8)
  }

  function FirstByte(r: Register): nat { 6 * r / 8 }

  function FirstBit(r: Register): BitIndex { 6 * r % 8 }

  lemma RegisterPlace(r: Register)
    ensures 6 * r == 8 * FirstByte(r) + FirstBit(r) && FirstByte(r) < 12288
    ensures FirstByte(r) == 12287 ==> FirstBit(r) <= 2
  {
  }

  function GetRegister(p: Block, r: Register): Byte {
    RegisterPlace(r);
    var b, fb := FirstByte(r), FirstBit(r);
    if b + 1 >= |p| then TakeLast(p[b], fb) else TakeBits(p[b], p[b + 1], fb)
  }

  function SetRegister(p: Block, r: Register, v: Byte): Block {
    RegisterPlace(r);
    var b, fb := FirstByte(r), FirstBit(r);
    var q := p[b := PutLow(p[b], v, fb)];
    if b + 1 >= |p| then q else q[b + 1 := PutHigh(p[b + 1], v, fb)]
  }

  /** Bit `j` of register `r` is bit `6 r + j` of the block. */
  lemma RegisterBit(p: Block, r: Register, j: BitIndex)
    requires j < 6
    ensures Bit(GetRegister(p, r), j) <==> BlockBit(p, 6 * r + j)
  {
    hide Bit, TakeBits, TakeLast;
    RegisterPlace(r);
    var b, fb := FirstByte(r), FirstBit(r);
    if b + 1 < 12288 {
      TakeBitsAt(p[b], p[b + 1], fb, j);
    } else {
      TakeBitsAt(p[b], 0, fb, j);
    }
    BitPlace(8 * b, fb + j);
  }

  lemma BitPlace(base: nat, k: nat)
    requires base % 8 == 0 && k < 16
    ensures (base + k) / 8 == base / 8 + (if k < 8 then 0 else 1) && (base + k) % 8 == if k < 8 then k else k - 8
  {
  }

  /** Setting a register sets its six bits and no other. */
  lemma SetRegisterBit(p: Block, r: Register, v: Byte, k: nat)
    requires v < 64 && k < 98304
    ensures BlockBit(SetRegister(p, r, v), k) <==> if 6 * r <= k < 6 * r + 6 then Bit(v, k - 6 * r) else BlockBit(p, k)
  {
    hide Bit, PutLow, PutHigh;
    RegisterPlace(r);
    var b, fb := FirstByte(r), FirstBit(r);
    var c := k % 8;
    if k / 8 == b { PutLowAt(p[b], v, fb, c); }
    if k / 8 == b + 1 { PutHighAt(p[b + 1], v, fb, c); }
    assert k == 8 * (k / 8) + c;
  }

  lemma TakeSmall(x: Byte, y: Byte, fb: BitIndex)
    ensures TakeBits(x, y, fb) < 64 && TakeLast(x, fb) < 64
  {
    AndSmall(Or(ShiftRight(OfByte(x), fb), ShiftLeft(OfByte(y), 8 - fb)));
    AndSmall(ShiftRight(OfByte(x), fb));
  }

  lemma AndSmall(x: bv8)
    ensures ToByte(And(x, 63)) < 64
  {
    assert x & 63 < 64;
  }

  lemma RegisterSmall(p: Block, r: Register)
    ensures GetRegister(p, r) < 64
  {
    hide TakeBits, TakeLast;
    RegisterPlace(r);
    var b, fb := FirstByte(r), FirstBit(r);
    TakeSmall(p[b], if b + 1 < 12288 then p[b + 1] else 0, fb);
  }

  /** A value of six bits is known by them. */
  lemma SixBitsEqual(m: Byte, n: Byte)
    requires m < 64 && n < 64 && forall j: BitIndex :: j < 6 ==> Bit(m, j) == Bit(n, j)
    ensures m == n
  {
    hide HasBit, OfByte;
    forall j: BitIndex ensures HasBit(OfByte(m), j) == HasBit(OfByte(n), j) {
      if j >= 6 {
        SmallByte(m, j);
        SmallByte(n, j);
      } else {
        assert Bit(m, j) == Bit(n, j);
      }
    }
    SameBits(OfByte(m), OfByte(n));
    OfByteInjective(m, n);
  }

  /** Setting a register is seen when reading it, and by no other register. */
  lemma SetThenGet(p: Block, r: Register, v: Byte, s: Register)
    requires v < 64
    ensures GetRegister(SetRegister(p, r, v), s) == if r == s then v else GetRegister(p, s)
  {
    hide GetRegister, SetRegister, BlockBit, Bit;
    var q := SetRegister(p, r, v);
    RegisterSmall(p, s);
    RegisterSmall(q, s);
    forall j: BitIndex | j < 6 ensures Bit(GetRegister(q, s), j) == Bit(if r == s then v else GetRegister(p, s), j) {
      RegisterBit(q, s, j);
      RegisterBit(p, s, j);
      SetRegisterBit(p, r, v, 6 * s + j);
    }
    SixBitsEqual(GetRegister(q, s), if r == s then v else GetRegister(p, s));
  }

  /** A block is known by its registers. */
  lemma SameRegisters(p: Block, q: Block)
    requires forall r: Register :: GetRegister(p, r) == GetRegister(q, r)
    ensures p == q
  {
    hide GetRegister, HasBit, OfByte;
    forall i | 0 <= i < 12288 ensures p[i] == q[i] {
      forall j: BitIndex ensures HasBit(OfByte(p[i]), j) == HasBit(OfByte(q[i]), j) {
        var k := 8 * i + j;
        var r: Register, b: BitIndex := k / 6, k % 6;
        RegisterBit(p, r, b);
        RegisterBit(q, r, b);
        assert 6 * r + b == k && k / 8 == i && k % 8 == j;
      }
      SameBits(OfByte(p[i]), OfByte(q[i]));
      OfByteInjective(p[i], q[i]);
    }
  }

  lemma ZeroRegister(r: Register)
    ensures GetRegister(ZeroBlock(), r) == 0
  {
    hide GetRegister, HasBit;
    var p := ZeroBlock();
    RegisterSmall(p, r);
    forall j: BitIndex | j < 6 ensures Bit(GetRegister(p, r), j) == Bit(0, j) {
      RegisterBit(p, r, j);
      ZeroHasNoBit(j);
      ZeroHasNoBit((6 * r + j) % 8);
    }
    SixBitsEqual(GetRegister(p, r), 0);
  }
}
