/** Strings as bit strings, most significant bit of each byte first, continued by zeros. */
module Bitmap {
  import opened ByteStrings
  import opened Store
  import opened Namespace
  import opened Bits

  /** Bit `k` of a string; beyond its end all bits are zero. */
  predicate BitOf(data: Bytes, k: nat) { k / 8 < |data| && Bit(data[k / 8], 7 - k % 8) }

  /** The bits of a byte are the binary digits of its number, the highest first. */
  lemma BitOfNumber(data: Bytes, i: nat, j: BitIndex)
    requires i < |data|
    ensures BitOf(data, 8 * i + j) <==> data[i] / Pow2(7 - j) % 2 == 1
  {
    assert (8 * i + j) / 8 == i && (8 * i + j) % 8 == j;
    BitIsDigit(data[i], 7 - j);
  }

  function ValueAt(data: Data, key: Bytes): Bytes { if key in data then data[key].value else [] }

  function Zeros(n: nat): (z: Bytes)
    ensures |z| == n && forall i :: 0 <= i < n ==> z[i] == 0
  {
    seq(n, i => 0)
  }

  lemma ZerosBit(n: nat, k: nat)
    ensures !BitOf(Zeros(n), k)
  {
    if k / 8 < n { ZeroHasNoBit(7 - k % 8); }
  }

  // ---- SETBIT and GETBIT -------------------------------------------------

  function Extended(data: Bytes, n: nat): Bytes { if |data| < n then data + Zeros(n - |data|) else data }

  lemma ExtendedBit(data: Bytes, n: nat, k: nat)
    ensures BitOf(Extended(data, n), k) <==> BitOf(data, k)
  {
    if |data| <= k / 8 < n { ZeroHasNoBit(7 - k % 8); }
  }

  function PutBit(data: Bytes, k: nat, on: bool): Bytes
    requires k / 8 < |data|
  {
    data[k / 8 := if on then SetBit(data[k / 8], 7 - k % 8) else ClearBit(data[k / 8], 7 - k % 8)]
  }

  lemma PutBitAt(data: Bytes, k: nat, on: bool, j: nat)
    requires k / 8 < |data|
    ensures BitOf(PutBit(data, k, on), j) <==> if j == k then on else BitOf(data, j)
  {
    hide Bit, SetBit, ClearBit;
    if j / 8 == k / 8 { SetBitAt(data[k / 8], 7 - k % 8, 7 - j % 8); }
    assert k == 8 * (k / 8) + k % 8 && j == 8 * (j / 8) + j % 8;
  }

  /** SETBIT: returns the bit before, and changes that bit only. */
  method SetBitOp(tx: Tx, key: Bytes, offset: nat, on: bool) returns (before: bool)
    modifies tx
    ensures before == BitOf(ValueAt(old(tx.data), key), offset)
    ensures key in tx.data
      && forall k: nat :: BitOf(ValueAt(tx.data, key), k) <==> if k == offset then on
        else BitOf(ValueAt(old(tx.data), key), k)
    ensures tx.data == old(tx.data)[key := Item(ValueAt(tx.data, key), TYPE_STRING, ExpiryOf(old(tx.data), key))]
    ensures |ValueAt(tx.data, key)| == if |ValueAt(old(tx.data), key)| > offset / 8 then |ValueAt(old(tx.data), key)|
      else offset / 8 + 1
  {
    hide Bit, SetBit, ClearBit;
    ghost var was := ValueAt(tx.data, key);
    var item := tx.Get(key);
    var data := if item.Some? then item.value.value else Zeros(offset / 8 + 1);
    assert item.None? ==> data == Extended(was, offset / 8 + 1);
    if offset / 8 >= |data| {
      data := data + Zeros(offset / 8 + 1 - |data|);
    }
    assert data == Extended(was, offset / 8 + 1);
    before := Bit(data[offset / 8], 7 - offset % 8);
    var changed := PutBit(data, offset, on);
    forall k: nat ensures BitOf(changed, k) <==> if k == offset then on else BitOf(was, k) {
      ExtendedBit(was, offset / 8 + 1, k);
      PutBitAt(data, offset, on, k);
    }
    ExtendedBit(was, offset / 8 + 1, offset);
    tx.Set(key, Item(changed, TYPE_STRING, if item.Some? then item.value.expiry else None));
  }

  method GetBitOp(tx: Tx, key: Bytes, offset: nat) returns (bit: bool)
    ensures bit == BitOf(ValueAt(tx.data, key), offset)
  {
    var item := tx.Get(key);
    if item.None? || offset / 8 >= |item.value.value| {
      return false;
    }
    return Bit(item.value.value[offset / 8], 7 - offset % 8);
  }

  datatype Write = Write(offset: nat, on: bool)

  /** Bit `k` after a history of writes. */
  function LastWrite(writes: seq<Write>, k: nat, initial: bool): bool {
    if writes == [] then initial
    else if writes[|writes| - 1].offset == k then writes[|writes| - 1].on
    else LastWrite(writes[..|writes| - 1], k, initial)
  }

  /** Any history of SETBITs writes a total bit string. */
  method SetBits(tx: Tx, key: Bytes, writes: seq<Write>)
    modifies tx
    ensures forall k: nat ::
      BitOf(ValueAt(tx.data, key), k) <==> LastWrite(writes, k, BitOf(ValueAt(old(tx.data), key), k))
  {
    hide BitOf;
    ghost var was := ValueAt(tx.data, key);
    for i := 0 to |writes|
      invariant forall k: nat :: BitOf(ValueAt(tx.data, key), k) <==> LastWrite(writes[..i], k, BitOf(was, k))
    {
      var _ := SetBitOp(tx, key, writes[i].offset, writes[i].on);
      assert writes[..i + 1][..i] == writes[..i];
    }
    assert writes[..|writes|] == writes;
  }

  // ---- BITCOUNT ----------------------------------------------------------

  function One(b: bool): nat { if b then 1 else 0 }

  /** How many bits are set from `lo` up to, not including, `hi`. */
  function CountBits(data: Bytes, lo: nat, hi: nat): nat {
    if hi <= lo then 0 else CountBits(data, lo, hi - 1) + One(BitOf(data, hi - 1))
  }

  lemma {:induction false} CountBitsExact(data: Bytes, lo: nat, hi: nat)
    ensures CountBits(data, lo, hi) == |set k: nat | lo <= k < hi && BitOf(data, k)|
  {
    hide BitOf;
    var now := set k: nat | lo <= k < hi && BitOf(data, k);
    if hi <= lo {
      assert now == {};
    } else {
      CountBitsExact(data, lo, hi - 1);
      var before := set k: nat | lo <= k < hi - 1 && BitOf(data, k);
      assert now == if BitOf(data, hi - 1) then before + {hi - 1} else before;
    }
  }

  /** How many bits of a byte are set. */
  function Ones(n: Byte): nat {
    One(Bit(n, 0)) + One(Bit(n, 1)) + One(Bit(n, 2)) + One(Bit(n, 3))
    + One(Bit(n, 4)) + One(Bit(n, 5)) + One(Bit(n, 6)) + One(Bit(n, 7))
  }

  lemma CountNext(data: Bytes, lo: nat, n: nat)
    requires lo <= n
    ensures CountBits(data, lo, n + 1) == CountBits(data, lo, n) + One(BitOf(data, n))
  {
  }

  lemma ByteBit(data: Bytes, i: nat, j: BitIndex)
    requires i < |data|
    ensures BitOf(data, 8 * i + j) <==> Bit(data[i], 7 - j)
  {
    hide Bit;
    assert (8 * i + j) / 8 == i && (8 * i + j) % 8 == j;
  }

  lemma ByteBits(data: Bytes, lo: nat, i: nat)
    requires i < |data| && lo <= 8 * i
    ensures CountBits(data, lo, 8 * i + 8) == CountBits(data, lo, 8 * i) + Ones(data[i])
  {
    hide Bit, BitOf, CountBits;
    var n := 8 * i;
    CountNext(data, lo, n);
    ByteBit(data, i, 0);
    CountNext(data, lo, n + 1);
    ByteBit(data, i, 1);
    CountNext(data, lo, n + 2);
    ByteBit(data, i, 2);
    CountNext(data, lo, n + 3);
    ByteBit(data, i, 3);
    CountNext(data, lo, n + 4);
    ByteBit(data, i, 4);
    CountNext(data, lo, n + 5);
    ByteBit(data, i, 5);
    CountNext(data, lo, n + 6);
    ByteBit(data, i, 6);
    CountNext(data, lo, n + 7);
    ByteBit(data, i, 7);
  }

  datatype Unit = InBytes | InBits

  /** The bits a BITCOUNT range covers. */
  function Covered(data: Bytes, start: int, end: int, unit: Unit): (nat, nat) {
    match unit
    case InBits =>
      (match Clamp(start, end, 8 * |data|)
       case None => (0, 0)
       case Some((s, e)) => (s, e + 1))
    case InBytes =>
      (match Clamp(start, end, |data|)
       case None => (0, 0)
       case Some((s, e)) => (8 * s, 8 * e + 8))
  }

  /** Bit `k`, or the byte it lies in, is one of those the indices enclose. */
  predicate InRange(data: Bytes, start: int, end: int, unit: Unit, k: nat) {
    if unit.InBits? then Between(start, end, 8 * |data|, k) else Between(start, end, |data|, k / 8)
  }

  /** What is covered are the bits the indices enclose. */
  lemma CoveredExact(data: Bytes, start: int, end: int, unit: Unit, k: nat)
    requires k < 8 * |data|
    ensures var (lo, hi) := Covered(data, start, end, unit);
      hi <= 8 * |data| && (lo <= k < hi <==> InRange(data, start, end, unit, k))
  {
    if unit.InBits? { ClampExact(start, end, 8 * |data|, k); } else { ClampExact(start, end, |data|, k / 8); }
  }

  /** BITCOUNT counts exactly the set bits that the indices enclose. */
  lemma CountsExact(data: Bytes, start: int, end: int, unit: Unit)
    ensures var (lo, hi) := Covered(data, start, end, unit);
      CountBits(data, lo, hi) == |set k: nat | k < 8 * |data| && BitOf(data, k) && InRange(data, start, end, unit, k)|
  {
    hide InRange, BitOf;
    var (lo, hi) := Covered(data, start, end, unit);
    forall k: nat | k < 8 * |data| ensures lo <= k < hi <==> InRange(data, start, end, unit, k) {
      CoveredExact(data, start, end, unit, k);
    }
    if data != [] { CoveredExact(data, start, end, unit, 0); }
    CountBitsExact(data, lo, hi);
    assert (set k: nat | k < 8 * |data| && BitOf(data, k) && InRange(data, start, end, unit, k))
      == set k: nat | lo <= k < hi && BitOf(data, k);
  }

  /** The indices 0 and -1 enclose the whole string, -1 and -1 its last byte or bit. */
  lemma WholeRange(data: Bytes, unit: Unit)
    ensures Covered(data, 0, -1, unit) == (0, 8 * |data|)
    ensures data != [] ==> Covered(data, -1, -1, InBytes) == (8 * |data| - 8, 8 * |data|)
    ensures data != [] ==> Covered(data, -1, -1, InBits) == (8 * |data| - 1, 8 * |data|)
  {
  }

  /** A byte range covers the bits of the matching bit range, for all indices. */
  lemma ByteRangeIsBitRange(data: Bytes, start: int, end: int)
    ensures Covered(data, start, end, InBytes) == Covered(data, 8 * start, 8 * end + 7, InBits)
  {
  }

  /** BITCOUNT: the set bits of the whole string, or of a range. */
  method BitCount(tx: Tx, key: Bytes, range: Option<(int, int, Unit)>) returns (count: nat)
    ensures var data := ValueAt(tx.data, key);
      count == if range.None? then CountBits(data, 0, 8 * |data|)
               else var (lo, hi) := Covered(data, range.value.0, range.value.1, range.value.2); CountBits(data, lo, hi)
    ensures var data := ValueAt(tx.data, key);
      range.None? ==> count == |set k: nat | k < 8 * |data| && BitOf(data, k)|
    ensures var data := ValueAt(tx.data, key);
      range.Some? ==>
        var (start, end, unit) := range.value;
        count == |set k: nat | k < 8 * |data| && BitOf(data, k) && InRange(data, start, end, unit, k)|
  {
    hide BitOf;
    ghost var was := ValueAt(tx.data, key);
    CountBitsExact(was, 0, 8 * |was|);
    assert (set k: nat | 0 <= k < 8 * |was| && BitOf(was, k)) == set k: nat | k < 8 * |was| && BitOf(was, k);
    if range.Some? { CountsExact(was, range.value.0, range.value.1, range.value.2); }
    var item := tx.Get(key);
    if item.None? {
      return 0;
    }
    hide CountBits, Covered;
    var data := item.value.value;
    if range.None? {
      count := CountBytes(data, 0, |data|);
      return;
    }
    var (start, end, unit) := range.value;
    count := CountIn(data, start, end, unit);
  }

  method CountIn(data: Bytes, start: int, end: int, unit: Unit) returns (count: nat)
    ensures var (lo, hi) := Covered(data, start, end, unit); count == CountBits(data, lo, hi)
  {
    var clamped := Clamp(start, end, if unit.InBits? then 8 * |data| else |data|);
    if clamped.None? {
      return 0;
    }
    hide CountBits, Clamp;
    var (s, e) := clamped.value;
    if unit.InBits? {
      count := CountRange(data, s, e + 1);
    } else {
      count := CountBytes(data, s, e + 1);
    }
  }

  method CountRange(data: Bytes, from: nat, to: nat) returns (count: nat)
    requires from <= to <= 8 * |data|
    ensures count == CountBits(data, from, to)
  {
    hide Bit;
    count := 0;
    for bit := from to to
      invariant count == CountBits(data, from, bit)
    {
      if Bit(data[bit / 8], 7 - bit % 8) {
        count := count + 1;
      }
    }
  }

  method CountBytes(data: Bytes, from: nat, to: nat) returns (count: nat)
    requires from <= to <= |data|
    ensures count == CountBits(data, 8 * from, 8 * to)
  {
    hide Ones, Bit;
    count := 0;
    for i := from to to
      invariant count == CountBits(data, 8 * from, 8 * i)
    {
      ByteBits(data, 8 * from, i);
      count := count + Ones(data[i]);
    }
  }

  // ---- BITPOS ------------------------------------------------------------

  /** `r` is the least position from `lo` to `hi` inside the string whose bit is `bit`, or -1. */
  ghost predicate IsFirst(data: Bytes, lo: nat, hi: int, bit: bool, r: int) {
    if r == -1 then forall k: nat :: lo <= k <= hi && k < 8 * |data| ==> BitOf(data, k) != bit
    else lo <= r <= hi && r < 8 * |data| && BitOf(data, r) == bit && forall k: nat :: lo <= k < r ==>
      BitOf(data, k) != bit
  }

  /** Scans byte by byte, and each byte bit by bit. */
  method BitPosInRange(data: Bytes, start: nat, end: int, bit: bool) returns (r: int)
    requires end >= 0 || data == []
    ensures IsFirst(data, start, end, bit, r)
  {
    hide BitOf;
    var i := start / 8;
    var endByte := if end < 0 then 0 else end / 8;
    while i <= endByte && i < |data|
      invariant start / 8 <= i && forall k: nat :: start <= k < 8 * i && k <= end ==> BitOf(data, k) != bit
    {
      var from := if i == start / 8 then start % 8 else 0;
      var to := if i == endByte then end % 8 else 7;
      r := ScanByte(data, i, from, to, bit);
      if r >= 0 {
        return;
      }
      i := i + 1;
    }
    return -1;
  }

  method ScanByte(data: Bytes, i: nat, from: BitIndex, to: BitIndex, bit: bool) returns (r: int)
    requires i < |data|
    ensures r == -1 ==> forall k: nat :: 8 * i + from <= k <= 8 * i + to ==> BitOf(data, k) != bit
    ensures r != -1 ==>
      8 * i + from <= r <= 8 * i + to && BitOf(data, r) == bit && forall k: nat :: 8 * i + from <= k < r ==>
        BitOf(data, k) != bit
  {
    hide BitOf, Bit;
    var j := from;
    while j <= to
      invariant from <= j <= 8 && forall k: nat :: 8 * i + from <= k < 8 * i + j ==> BitOf(data, k) != bit
    {
      ByteBit(data, i, j);
      if Bit(data[i], 7 - j) == bit {
        return 8 * i + j;
      }
      j := j + 1;
    }
    return -1;
  }

  /** BITPOS without a range: the least offset of the zero-extended string with this bit, or -1 when there is none. */
  method BitPos(tx: Tx, key: Bytes, bit: bool) returns (r: int)
    ensures var data := ValueAt(tx.data, key);
      if r == -1 then forall k: nat :: BitOf(data, k) != bit
      else r >= 0 && BitOf(data, r) == bit && forall k: nat :: k < r ==> BitOf(data, k) != bit
    ensures !bit ==> r >= 0
  {
    ghost var data := ValueAt(tx.data, key);
    forall k: nat | k >= 8 * |data| ensures !BitOf(data, k) { }
    hide BitOf;
    var item := tx.Get(key);
    if item.None? {
      return if bit then -1 else 0;
    }
    var pos := BitPosInRange(item.value.value, 0, 8 * |item.value.value| - 1, bit);
    return if pos >= 0 then pos else if bit then -1 else 8 * |item.value.value|;
  }

  /** `r` is the least position of the string that the indices enclose and whose bit is `bit`, or -1. */
  ghost predicate IsFirstInRange(data: Bytes, start: int, end: int, unit: Unit, bit: bool, r: int) {
    if r == -1 then forall k: nat :: k < 8 * |data| && InRange(data, start, end, unit, k) ==> BitOf(data, k) != bit
    else
      && 0 <= r < 8 * |data| && InRange(data, start, end, unit, r) && BitOf(data, r) == bit
      && forall k: nat :: k < r && InRange(data, start, end, unit, k) ==> BitOf(data, k) != bit
  }

  lemma FirstExact(data: Bytes, start: int, end: int, unit: Unit, bit: bool)
    ensures var (lo, hi) := Covered(data, start, end, unit);
      forall r :: IsFirst(data, lo, hi - 1, bit, r) <==> IsFirstInRange(data, start, end, unit, bit, r)
  {
    hide InRange, BitOf, Covered;
    var (lo, hi) := Covered(data, start, end, unit);
    forall k: nat | k < 8 * |data| ensures lo <= k < hi <==> InRange(data, start, end, unit, k) {
      CoveredExact(data, start, end, unit, k);
    }
  }

  /** BITPOS in a range of bytes or bits: the least offset of the range with this bit, or -1. */
  method BitPosIn(tx: Tx, key: Bytes, bit: bool, start: int, end: int, unit: Unit) returns (r: int)
    ensures key !in tx.data ==> r == if bit then -1 else 0
    ensures key in tx.data ==>
      var data := ValueAt(tx.data, key);
      var (lo, hi) := Covered(data, start, end, unit);
      IsFirst(data, lo, hi - 1, bit, r)
    ensures key in tx.data ==> IsFirstInRange(ValueAt(tx.data, key), start, end, unit, bit, r)
  {
    hide BitOf;
    FirstExact(ValueAt(tx.data, key), start, end, unit, bit);
    hide InRange, IsFirstInRange;
    var item := tx.Get(key);
    if item.None? {
      return if bit then -1 else 0;
    }
    var data := item.value.value;
    var clamped := Clamp(start, end, if unit.InBits? then 8 * |data| else |data|);
    if clamped.None? {
      return -1;
    }
    var (s, e) := clamped.value;
    if unit.InBits? {
      r := BitPosInRange(data, s, e, bit);
    } else {
      r := BitPosInRange(data, 8 * s, 8 * e + 7, bit);
    }
  }

  // ---- BITOP -------------------------------------------------------------

  datatype BitOp = OpAnd | OpOr | OpXor | OpNot | OpDiff | OpAndOr | OpOne

  type Source = Option<Bytes>

  predicate SourceBit(s: Source, k: nat) { s.Some? && BitOf(s.value, k) }

  /** How many sources have bit `k`. */
  function Having(sources: seq<Source>, k: nat): nat {
    if sources == [] then 0 else Having(sources[..|sources| - 1], k) + One(SourceBit(sources[|sources| - 1], k))
  }

  lemma {:induction false} HavingExact(sources: seq<Source>, k: nat)
    ensures Having(sources, k) == |set i | 0 <= i < |sources| && SourceBit(sources[i], k)|
  {
    hide BitOf;
    var now := set i | 0 <= i < |sources| && SourceBit(sources[i], k);
    if sources == [] {
      assert now == {};
    } else {
      var n, init := |sources| - 1, sources[..|sources| - 1];
      HavingExact(init, k);
      var before := set i | 0 <= i < |init| && SourceBit(init[i], k);
      assert now == if SourceBit(sources[n], k) then before + {n} else before;
    }
  }

  predicate Any(sources: seq<Source>, k: nat) { Having(sources, k) > 0 }

  /** What the operation makes of bit `k` of the zero-extended sources. */
  predicate Meaning(op: BitOp, sources: seq<Source>, k: nat)
    requires sources != []
  {
    match op
    case OpAnd => Having(sources, k) == |sources|
    case OpOr => Any(sources, k)
    case OpXor => Having(sources, k) % 2 == 1
    case OpNot => !SourceBit(sources[0], k)
    case OpDiff => SourceBit(sources[0], k) && !Any(sources[1..], k)
    case OpAndOr => SourceBit(sources[0], k) && Any(sources[1..], k)
    case OpOne => Having(sources, k) == 1
  }

  function LongestOf(sources: seq<Source>): nat {
    if sources == [] then 0
    else
      var rest, s := LongestOf(sources[..|sources| - 1]), sources[|sources| - 1];
      if s.Some? && |s.value| > rest then |s.value| else rest
  }

  function OrByte(a: Byte, b: Byte): Byte { ToByte(Or(OfByte(a), OfByte(b))) }

  function AndByte(a: Byte, b: Byte): Byte { ToByte(And(OfByte(a), OfByte(b))) }

  function XorByte(a: Byte, b: Byte): Byte { ToByte(Xor(OfByte(a), OfByte(b))) }

  function NotByte(a: Byte): Byte { ToByte(Not(OfByte(a))) }

  lemma ByteOps(a: Byte, b: Byte, j: BitIndex)
    ensures Bit(OrByte(a, b), j) <==> Bit(a, j) || Bit(b, j)
    ensures Bit(AndByte(a, b), j) <==> Bit(a, j) && Bit(b, j)
    ensures Bit(XorByte(a, b), j) <==> Bit(a, j) != Bit(b, j)
    ensures Bit(NotByte(a), j) <==> !Bit(a, j)
  {
    hide HasBit, OfByte, ToByte, Or, And, Xor, Not;
    var x, y := OfByte(a), OfByte(b);
    OrAt(x, y, j);
    AndAt(x, y, j);
    XorAt(x, y, j);
    NotAt(x, j);
    ByteOf(Or(x, y));
    ByteOf(And(x, y));
    ByteOf(Xor(x, y));
    ByteOf(Not(x));
  }

  /** Sets the bits of `s`. */
  method OrInto(result: Bytes, s: Bytes) returns (r: Bytes)
    requires |s| <= |result|
    ensures |r| == |result| && forall k: nat :: k < 8 * |result| ==> (BitOf(r, k) <==> BitOf(result, k) || BitOf(s, k))
  {
    hide Bit, OrByte, AndByte, XorByte, NotByte;
    r := result;
    for j := 0 to |s|
      invariant |r| == |result|
      invariant forall i :: 0 <= i < |r| ==> r[i] == if i < j then OrByte(result[i], s[i]) else result[i]
    {
      r := r[j := OrByte(r[j], s[j])];
    }
    forall k: nat | k < 8 * |result| ensures BitOf(r, k) <==> BitOf(result, k) || BitOf(s, k) {
      var i := k / 8;
      if i < |s| { ByteOps(result[i], s[i], 7 - k % 8); }
    }
  }

  /** Flips the bits of `s`. */
  method XorInto(result: Bytes, s: Bytes) returns (r: Bytes)
    requires |s| <= |result|
    ensures |r| == |result| && forall k: nat :: k < 8 * |result| ==> (BitOf(r, k) <==> BitOf(result, k) != BitOf(s, k))
  {
    hide Bit, OrByte, AndByte, XorByte, NotByte;
    r := result;
    for j := 0 to |s|
      invariant |r| == |result|
      invariant forall i :: 0 <= i < |r| ==> r[i] == if i < j then XorByte(result[i], s[i]) else result[i]
    {
      r := r[j := XorByte(r[j], s[j])];
    }
    forall k: nat | k < 8 * |result| ensures BitOf(r, k) <==> BitOf(result, k) != BitOf(s, k) {
      var i := k / 8;
      if i < |s| { ByteOps(result[i], s[i], 7 - k % 8); }
    }
  }

  /** Clears the bits of `s`. */
  method ClearInto(result: Bytes, s: Bytes) returns (r: Bytes)
    requires |s| <= |result|
    ensures |r| == |result| && forall k: nat :: k < 8 * |result| ==> (BitOf(r, k) <==> BitOf(result, k) && !BitOf(s, k))
  {
    hide Bit, OrByte, AndByte, XorByte, NotByte;
    r := result;
    for j := 0 to |s|
      invariant |r| == |result|
      invariant forall i :: 0 <= i < |r| ==> r[i] == if i < j then AndByte(result[i], NotByte(s[i])) else result[i]
    {
      r := r[j := AndByte(r[j], NotByte(s[j]))];
    }
    forall k: nat | k < 8 * |result| ensures BitOf(r, k) <==> BitOf(result, k) && !BitOf(s, k) {
      var i := k / 8;
      if i < |s| {
        ByteOps(result[i], s[i], 7 - k % 8);
        ByteOps(s[i], 0, 7 - k % 8);
        ByteOps(result[i], NotByte(s[i]), 7 - k % 8);
      }
    }
  }

  /** Keeps the bits that `s` has too. */
  method AndInto(result: Bytes, s: Bytes) returns (r: Bytes)
    requires |s| <= |result|
    ensures |r| == |result| && forall k: nat :: k < 8 * |result| ==> (BitOf(r, k) <==> BitOf(result, k) && BitOf(s, k))
  {
    hide Bit, OrByte, AndByte, XorByte, NotByte;
    r := result;
    for j := 0 to |result|
      invariant |r| == |result|
      invariant forall i :: 0 <= i < |r| ==> r[i] == if i < j then (if i < |s| then AndByte(result[i], s[i]) else 0)
        else result[i]
    {
      r := r[j := if j < |s| then AndByte(r[j], s[j]) else 0];
    }
    forall k: nat | k < 8 * |result| ensures BitOf(r, k) <==> BitOf(result, k) && BitOf(s, k) {
      var i := k / 8;
      if i < |s| { ByteOps(result[i], s[i], 7 - k % 8); }
      ZeroHasNoBit(7 - k % 8);
    }
  }

  ghost predicate FitsIn(sources: seq<Source>, n: nat) {
    forall i :: 0 <= i < |sources| ==> sources[i].Some? ==> |sources[i].value| <= n
  }

  /** The longest length is that of a source, or 0. */
  lemma {:induction false} LongestFits(sources: seq<Source>)
    ensures FitsIn(sources, LongestOf(sources))
    ensures LongestOf(sources) == 0 ||
      exists i :: 0 <= i < |sources| && sources[i].Some? && |sources[i].value| == LongestOf(sources)
  {
    if sources != [] {
      var init := sources[..|sources| - 1];
      LongestFits(init);
      forall i | 0 <= i < |sources| ensures sources[i].Some? ==> |sources[i].value| <= LongestOf(sources) {
        if i < |sources| - 1 { assert sources[i] == init[i]; }
      }
    }
  }

  /** The union of the sources. */
  method UnionOf(sources: seq<Source>, n: nat) returns (r: Bytes)
    requires FitsIn(sources, n)
    ensures |r| == n && forall k: nat :: k < 8 * n ==> (BitOf(r, k) <==> Any(sources, k))
  {
    r := Zeros(n);
    forall k: nat | k < 8 * n ensures !BitOf(r, k) { ZerosBit(n, k); }
    hide BitOf;
    for i := 0 to |sources|
      invariant |r| == n && forall k: nat :: k < 8 * n ==> (BitOf(r, k) <==> Having(sources[..i], k) > 0)
    {
      assert sources[..i + 1][..i] == sources[..i];
      if sources[i].Some? {
        r := OrInto(r, sources[i].value);
      }
    }
    assert sources[..|sources|] == sources;
  }

  function Filled(n: nat): (z: Bytes)
    ensures |z| == n && forall i :: 0 <= i < n ==> z[i] == 255
  {
    seq(n, i => 255)
  }

  lemma FilledBit(n: nat, k: nat)
    requires k < 8 * n
    ensures BitOf(Filled(n), k)
  {
    FullByte(7 - k % 8);
  }

  lemma FullByte(j: BitIndex)
    ensures Bit(255, j)
  {
  }

  lemma {:induction false} HavingAll(sources: seq<Source>, i: nat, k: nat)
    requires i <= |sources|
    ensures Having(sources, k) <= Having(sources[..i], k) + |sources| - i && Having(sources[..i], k) <= i
    decreases |sources|
  {
    if i == |sources| {
      assert sources[..i] == sources;
      if i > 0 { HavingAll(sources[..i - 1], i - 1, k); assert sources[..i - 1][..i - 1] == sources[..i - 1]; }
    } else {
      var init := sources[..|sources| - 1];
      assert init[..i] == sources[..i];
      HavingAll(init, i, k);
    }
  }

  /** The bits all sources have; a missing source has none. */
  method CommonOf(sources: seq<Source>, n: nat) returns (r: Bytes)
    requires FitsIn(sources, n)
    ensures |r| == n && forall k: nat :: k < 8 * n ==> (BitOf(r, k) <==> Having(sources, k) == |sources|)
  {
    r := Filled(n);
    forall k: nat | k < 8 * n ensures BitOf(r, k) { FilledBit(n, k); }
    forall k: nat ensures !BitOf(Zeros(n), k) { ZerosBit(n, k); }
    hide BitOf;
    for i := 0 to |sources|
      invariant |r| == n && forall k: nat :: k < 8 * n ==> (BitOf(r, k) <==> Having(sources[..i], k) == i)
    {
      assert sources[..i + 1][..i] == sources[..i];
      forall k: nat
        ensures Having(sources[..i], k) <= i && Having(sources, k) <= Having(sources[..i + 1], k) + |sources| - (i + 1)
      {
        HavingAll(sources, i, k);
        HavingAll(sources, i + 1, k);
      }
      if sources[i].None? {
        r := Zeros(n);
        ghost var seen := sources[..i + 1];
        assert forall k: nat :: Having(seen, k) <= i;
        return;
      }
      r := AndInto(r, sources[i].value);
    }
    assert sources[..|sources|] == sources;
  }

  /** The bits an odd number of sources have. */
  method OddOf(sources: seq<Source>, n: nat) returns (r: Bytes)
    requires FitsIn(sources, n)
    ensures |r| == n && forall k: nat :: k < 8 * n ==> (BitOf(r, k) <==> Having(sources, k) % 2 == 1)
  {
    r := Zeros(n);
    forall k: nat | k < 8 * n ensures !BitOf(r, k) { ZerosBit(n, k); }
    hide BitOf;
    for i := 0 to |sources|
      invariant |r| == n && forall k: nat :: k < 8 * n ==> (BitOf(r, k) <==> Having(sources[..i], k) % 2 == 1)
    {
      assert sources[..i + 1][..i] == sources[..i];
      if sources[i].Some? {
        r := XorInto(r, sources[i].value);
      }
    }
    assert sources[..|sources|] == sources;
  }

  /** The complement of a source as long as the buffer, or of a missing one. */
  method ComplementOf(source: Source, n: nat) returns (r: Bytes)
    requires source.Some? ==> |source.value| == n
    ensures |r| == n && forall k: nat :: k < 8 * n ==> (BitOf(r, k) <==> !SourceBit(source, k))
  {
    hide Bit, NotByte;
    r := Filled(n);
    if source.None? {
      forall k: nat | k < 8 * n ensures BitOf(r, k) { FilledBit(n, k); }
      return;
    }
    var s := source.value;
    for j := 0 to n
      invariant |r| == n && forall i :: 0 <= i < j ==> r[i] == NotByte(s[i])
    {
      r := r[j := NotByte(s[j])];
    }
    forall k: nat | k < 8 * n ensures BitOf(r, k) <==> !BitOf(s, k) { ByteOps(s[k / 8], 0, 7 - k % 8); }
  }

  /** A source copied into the buffer. */
  method CopyOf(source: Source, n: nat) returns (r: Bytes)
    requires source.Some? ==> |source.value| <= n
    ensures |r| == n && forall k: nat :: BitOf(r, k) <==> SourceBit(source, k)
  {
    hide Bit;
    forall k: nat ensures !BitOf(Zeros(n), k) { ZerosBit(n, k); }
    if source.None? {
      return Zeros(n);
    }
    r := source.value + Zeros(n - |source.value|);
    assert r == Extended(source.value, n);
    forall k: nat ensures BitOf(r, k) <==> BitOf(source.value, k) { ExtendedBit(source.value, n, k); }
  }

  /** The first source without the bits of the others. */
  method DifferenceOf(sources: seq<Source>, n: nat) returns (r: Bytes)
    requires sources != [] && FitsIn(sources, n)
    ensures |r| == n
      && forall k: nat :: k < 8 * n ==> (BitOf(r, k) <==> SourceBit(sources[0], k) && !Any(sources[1..], k))
  {
    hide BitOf;
    r := CopyOf(sources[0], n);
    var rest := sources[1..];
    for i := 0 to |rest|
      invariant |r| == n
        && forall k: nat :: k < 8 * n ==> (BitOf(r, k) <==> SourceBit(sources[0], k) && Having(rest[..i], k) == 0)
    {
      assert rest[..i + 1][..i] == rest[..i] && rest[i] == sources[i + 1];
      if rest[i].Some? {
        r := ClearInto(r, rest[i].value);
      }
    }
    assert rest[..|rest|] == rest;
  }

  /** The bits the first source shares with any other. */
  method AndOrOf(sources: seq<Source>, n: nat) returns (r: Bytes)
    requires sources != [] && FitsIn(sources, n)
    ensures |r| == n
      && forall k: nat :: k < 8 * n ==> (BitOf(r, k) <==> SourceBit(sources[0], k) && Any(sources[1..], k))
  {
    hide BitOf;
    var first := CopyOf(sources[0], n);
    var rest := sources[1..];
    assert FitsIn(rest, n) by { assert forall i :: 0 <= i < |rest| ==> rest[i] == sources[i + 1]; }
    var union := UnionOf(rest, n);
    r := AndInto(first, union);
  }

  /** How many sources have bit `k`, counted. */
  method CountHaving(sources: seq<Source>, k: nat) returns (count: nat)
    ensures count == Having(sources, k)
  {
    hide Bit;
    count := 0;
    for i := 0 to |sources|
      invariant count == Having(sources[..i], k)
    {
      assert sources[..i + 1][..i] == sources[..i];
      if sources[i].Some? && k / 8 < |sources[i].value| && Bit(sources[i].value[k / 8], 7 - k % 8) {
        count := count + 1;
      }
    }
    assert sources[..|sources|] == sources;
  }

  /** The bits exactly one source has. */
  method ExactlyOneOf(sources: seq<Source>, n: nat) returns (r: Bytes)
    ensures |r| == n && forall k: nat :: k < 8 * n ==> (BitOf(r, k) <==> Having(sources, k) == 1)
  {
    r := Zeros(n);
    forall k: nat ensures !BitOf(r, k) { ZerosBit(n, k); }
    hide BitOf, Having;
    for p := 0 to 8 * n
      invariant |r| == n && forall k: nat :: k < 8 * n ==> (BitOf(r, k) <==> k < p && Having(sources, k) == 1)
    {
      var count := CountHaving(sources, p);
      if count == 1 {
        ghost var before := r;
        r := PutBit(r, p, true);
        forall k: nat | k < 8 * n ensures BitOf(r, k) <==> k == p || BitOf(before, k) { PutBitAt(before, p, true, k); }
      }
    }
  }

  /** The result of BITOP: every bit below the longest source has the meaning of the operation. */
  method Combine(op: BitOp, sources: seq<Source>) returns (r: Bytes)
    requires sources != [] && (op.OpNot? ==> |sources| == 1)
    ensures |r| == LongestOf(sources) && forall k: nat :: k < 8 * |r| ==> (BitOf(r, k) <==> Meaning(op, sources, k))
  {
    var n := LongestOf(sources);
    LongestFits(sources);
    hide BitOf, FitsIn;
    match op
    case OpAnd => r := CommonOf(sources, n);
    case OpOr => r := UnionOf(sources, n);
    case OpXor => r := OddOf(sources, n);
    case OpNot =>
      assert sources[..0] == [] && LongestOf([]) == 0;
      r := ComplementOf(sources[0], n);
    case OpDiff => r := DifferenceOf(sources, n);
    case OpAndOr => r := AndOrOf(sources, n);
    case OpOne => r := ExactlyOneOf(sources, n);
  }

  function SourcesAt(data: Data, keys: seq<Bytes>): (sources: seq<Source>)
    ensures |sources| == |keys|
  {
    seq(|keys|, i requires 0 <= i < |keys| => if keys[i] in data then Some(data[keys[i]].value) else None)
  }

  /** BITOP: stores the combination of the sources and returns the length of the longest. */
  method BitOpOp(tx: Tx, op: BitOp, dest: Bytes, keys: seq<Bytes>) returns (n: nat)
    requires keys != [] && (op.OpNot? ==> |keys| == 1)
    modifies tx
    ensures var sources := SourcesAt(old(tx.data), keys);
      && n == LongestOf(sources) && tx.data == old(tx.data)[dest := Item(ValueAt(tx.data, dest), TYPE_STRING, None)]
      && |ValueAt(tx.data, dest)| == n && forall k: nat :: k < 8 * n ==>
        (BitOf(ValueAt(tx.data, dest), k) <==> Meaning(op, sources, k))
  {
    hide BitOf, Meaning, LongestOf;
    var sources: seq<Source> := [];
    for i := 0 to |keys|
      invariant |sources| == i
        && forall j :: 0 <= j < i ==> sources[j] == if keys[j] in tx.data then Some(tx.data[keys[j]].value) else None
    {
      var item := tx.Get(keys[i]);
      sources := sources + [if item.Some? then Some(item.value.value) else None];
    }
    assert sources == SourcesAt(tx.data, keys);
    var r := Combine(op, sources);
    tx.Set(dest, Item(r, TYPE_STRING, None));
    return |r|;
  }
}
