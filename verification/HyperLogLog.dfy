/**
  HyperLogLog sketches. The hash of an element and the estimator are
  parameters: a function to a register and a level, and a function of the
  register histogram.
 */
module HyperLogLog {
  import opened ByteStrings
  import opened Store
  import opened Namespace
  import opened Bits
  import opened HllRegisters

  function Max(a: nat, b: nat): nat { if a < b then b else a }

  // ---- The unrolled histogram --------------------------------------------

  /** How many of the first `n` registers hold `v`. */
  function CountRegisters(p: Block, n: nat, v: int): nat
    requires n <= 16384
  {
    if n == 0 then 0 else CountRegisters(p, n - 1, v) + (if GetRegister(p, n - 1) == v then 1 else 0)
  }

  lemma {:induction false} CountExact(p: Block, n: nat, v: int)
    requires n <= 16384
    ensures CountRegisters(p, n, v) == |set r: Register | r < n && GetRegister(p, r) == v|
  {
    hide GetRegister;
    var now := set r: Register | r < n && GetRegister(p, r) == v;
    if n == 0 {
      assert now == {};
    } else {
      CountExact(p, n - 1, v);
      var before := set r: Register | r < n - 1 && GetRegister(p, r) == v;
      assert now == if GetRegister(p, n - 1) == v then before + {n - 1} else before;
    }
  }

  function Histogram(p: Block): seq<nat> { seq(64, v => CountRegisters(p, 16384, v)) }

  type Counts = h: seq<nat> | |h| == 64 witness seq(64, i => 0)

  function Bump(h: Counts, v: Byte): Counts
    requires v < 64
  {
    h[v := h[v] + 1]
  }

  /** The four counters together have seen the first `n` registers. */
  ghost predicate Tallied(h0: Counts, h1: Counts, h2: Counts, h3: Counts, p: Block, n: nat) {
    n <= 16384 && forall v :: 0 <= v < 64 ==> h0[v] + h1[v] + h2[v] + h3[v] == CountRegisters(p, n, v)
  }

  function Low6(x: Byte): Byte { ToByte(And(OfByte(x), 63)) }

  lemma AlignedTakes(x: Byte, y: Byte)
    ensures TakeBits(x, y, 0) == Low6(x) && TakeBits(x, y, 2) == TakeLast(x, 2)
  {
    Aligned0(OfByte(x), OfByte(y));
    Aligned2(OfByte(x), OfByte(y));
  }

  lemma Aligned0(x: bv8, y: bv8)
    ensures And(Or(ShiftRight(x, 0), ShiftLeft(y, 8)), 63) == And(x, 63)
  {
  }

  lemma Aligned2(x: bv8, y: bv8)
    ensures And(Or(ShiftRight(x, 2), ShiftLeft(y, 6)), 63) == And(ShiftRight(x, 2), 63)
  {
  }

  /** Three bytes hold four registers, each read as the unrolled loop reads it. */
  lemma FourRegisters(p: Block, g: nat)
    requires g < 4096
    ensures var x, y, z := p[3 * g], p[3 * g + 1], p[3 * g + 2];
      && GetRegister(p, 4 * g) == Low6(x) && GetRegister(p, 4 * g + 1) == TakeBits(x, y, 6)
      && GetRegister(p, 4 * g + 2) == TakeBits(y, z, 4) && GetRegister(p, 4 * g + 3) == TakeLast(z, 2)
  {
    hide TakeBits, TakeLast, Low6;
    var x, y, z := p[3 * g], p[3 * g + 1], p[3 * g + 2];
    AlignedTakes(x, y);
    if 3 * g + 3 < 12288 { AlignedTakes(z, p[3 * g + 3]); }
    assert FirstByte(4 * g) == 3 * g && FirstBit(4 * g) == 0;
    assert FirstByte(4 * g + 1) == 3 * g && FirstBit(4 * g + 1) == 6;
    assert FirstByte(4 * g + 2) == 3 * g + 1 && FirstBit(4 * g + 2) == 4;
    assert FirstByte(4 * g + 3) == 3 * g + 2 && FirstBit(4 * g + 3) == 2;
  }

  /** Counts the four registers of three bytes, one in each counter. */
  method CountFour(h0: Counts, h1: Counts, h2: Counts, h3: Counts, p: Block, g: nat)
    returns (k0: Counts, k1: Counts, k2: Counts, k3: Counts)
    requires g < 4096 && Tallied(h0, h1, h2, h3, p, 4 * g)
    ensures Tallied(k0, k1, k2, k3, p, 4 * g + 4)
  {
    hide GetRegister, TakeBits, TakeLast, Low6;
    var x, y, z := p[3 * g], p[3 * g + 1], p[3 * g + 2];
    FourRegisters(p, g);
    RegisterSmall(p, 4 * g);
    RegisterSmall(p, 4 * g + 1);
    RegisterSmall(p, 4 * g + 2);
    RegisterSmall(p, 4 * g + 3);
    k0, k1, k2, k3 := Bump(h0, Low6(x)), Bump(h1, TakeBits(x, y, 6)), Bump(h2, TakeBits(y, z, 4)), Bump(h3,
                           TakeLast(z, 2));
    forall v | 0 <= v < 64 ensures k0[v] + k1[v] + k2[v] + k3[v] == CountRegisters(p, 4 * g + 4, v) {
      CountNext(p, 4 * g, v);
    }
  }

  lemma CountNext(p: Block, n: nat, v: int)
    requires n + 4 <= 16384
    ensures CountRegisters(p, n + 4, v) == CountRegisters(p, n, v)
      + (if GetRegister(p, n) == v then 1 else 0) + (if GetRegister(p, n + 1) == v then 1 else 0)
      + (if GetRegister(p, n + 2) == v then 1 else 0) + (if GetRegister(p, n + 3) == v then 1 else 0)
  {
    hide GetRegister;
    assert CountRegisters(p, n + 1, v) == CountRegisters(p, n, v) + (if GetRegister(p, n) == v then 1 else 0);
    assert CountRegisters(p, n + 2, v) == CountRegisters(p, n + 1, v) + (if GetRegister(p, n + 1) == v then 1 else 0);
    assert CountRegisters(p, n + 3, v) == CountRegisters(p, n + 2, v) + (if GetRegister(p, n + 2) == v then 1 else 0);
  }

  function NoCounts(): (h: Counts)
    ensures forall v :: 0 <= v < 64 ==> h[v] == 0
  {
    seq(64, i => 0)
  }

  lemma NothingTallied(p: Block)
    ensures Tallied(NoCounts(), NoCounts(), NoCounts(), NoCounts(), p, 0)
  {
  }

  /** The unrolled loop: sixteen registers from twelve bytes at a time. */
  method RegisterHistogram(p: Block) returns (histo: seq<nat>)
    ensures histo == Histogram(p)
  {
    hide *;
    var h0, h1, h2, h3 := NoCounts(), NoCounts(), NoCounts(), NoCounts();
    NothingTallied(p);
    for j := 0 to 1024
      invariant Tallied(h0, h1, h2, h3, p, 16 * j)
    {
      h0, h1, h2, h3 := CountFour(h0, h1, h2, h3, p, 4 * j);
      h0, h1, h2, h3 := CountFour(h0, h1, h2, h3, p, 4 * j + 1);
      h0, h1, h2, h3 := CountFour(h0, h1, h2, h3, p, 4 * j + 2);
      h0, h1, h2, h3 := CountFour(h0, h1, h2, h3, p, 4 * j + 3);
    }
    histo := AddUp(h0, h1, h2, h3, p);
  }

  method AddUp(h0: Counts, h1: Counts, h2: Counts, h3: Counts, ghost p: Block) returns (histo: seq<nat>)
    requires Tallied(h0, h1, h2, h3, p, 16384)
    ensures histo == Histogram(p)
  {
    hide CountRegisters;
    histo := [];
    for v := 0 to 64
      invariant |histo| == v && forall w :: 0 <= w < v ==> histo[w] == CountRegisters(p, 16384, w)
    {
      histo := histo + [h0[v] + h1[v] + h2[v] + h3[v]];
    }
  }

  // ---- What a sketch stands for ------------------------------------------

  /** The register an element falls on, and the level it raises it to. */
  type Pattern = Bytes -> (nat, nat)

  ghost predicate GoodPattern(pat: Pattern) {
    forall e :: pat(e).0 < 16384 && 1 <= pat(e).1 <= 51
  }

  /** The highest level of the elements that fall on register `r`. */
  function Highest(elems: seq<Bytes>, r: int, pat: Pattern): nat {
    if elems == [] then 0
    else
      var last := elems[|elems| - 1];
      Max(Highest(elems[..|elems| - 1], r, pat), if pat(last).0 == r then pat(last).1 else 0)
  }

  /** The block is the sketch of these elements. */
  ghost predicate SketchOf(p: Block, elems: seq<Bytes>, pat: Pattern) {
    forall r: Register :: GetRegister(p, r) == Highest(elems, r, pat)
  }

  lemma {:induction false} HighestConcat(a: seq<Bytes>, b: seq<Bytes>, r: int, pat: Pattern)
    ensures Highest(a + b, r, pat) == Max(Highest(a, r, pat), Highest(b, r, pat))
    decreases |b|
  {
    if b == [] {
      assert a + b == a;
    } else {
      var init := b[..|b| - 1];
      assert (a + b)[..|a + b| - 1] == a + init && (a + b)[|a + b| - 1] == b[|b| - 1];
      HighestConcat(a, init, r, pat);
    }
  }

  lemma {:induction false} HighestBounds(elems: seq<Bytes>, r: int, pat: Pattern)
    ensures forall e :: e in elems && pat(e).0 == r ==> pat(e).1 <= Highest(elems, r, pat)
    ensures Highest(elems, r, pat) > 0 ==> exists e :: e in elems && pat(e).0 == r && pat(e).1 == Highest(elems, r, pat)
  {
    if elems != [] {
      var init, last := elems[..|elems| - 1], elems[|elems| - 1];
      HighestBounds(init, r, pat);
      assert elems == init + [last];
      forall e | e in elems && pat(e).0 == r ensures pat(e).1 <= Highest(elems, r, pat) {
        if e != last { assert e in init; }
      }
      if Highest(elems, r, pat) > 0 {
        if Highest(elems, r, pat) == Highest(init, r, pat) {
          var e :| e in init && pat(e).0 == r && pat(e).1 == Highest(init, r, pat);
          assert e in elems;
        } else {
          assert last in elems;
        }
      }
    }
  }

  /** Neither order nor repetition matters. */
  lemma HighestOfSet(a: seq<Bytes>, b: seq<Bytes>, r: int, pat: Pattern)
    requires forall e :: e in a <==> e in b
    ensures Highest(a, r, pat) == Highest(b, r, pat)
  {
    HighestBounds(a, r, pat);
    HighestBounds(b, r, pat);
  }

  /** Two blocks for the same set of elements are the same bytes. */
  lemma SketchUnique(p: Block, q: Block, a: seq<Bytes>, b: seq<Bytes>, pat: Pattern)
    requires SketchOf(p, a, pat) && SketchOf(q, b, pat) && forall e :: e in a <==> e in b
    ensures p == q
  {
    hide GetRegister, Highest;
    forall r: Register ensures GetRegister(p, r) == GetRegister(q, r) { HighestOfSet(a, b, r, pat); }
    SameRegisters(p, q);
  }

  // ---- Adding ------------------------------------------------------------

  /** Raises a register, telling whether it changed. */
  method DenseSet(p: Block, r: Register, count: Byte) returns (q: Block, changed: bool)
    requires count < 64
    ensures forall s: Register :: GetRegister(q, s) == if s == r then Max(GetRegister(p, r), count)
      else GetRegister(p, s)
    ensures changed <==> count > GetRegister(p, r)
    ensures !changed ==> q == p
  {
    hide GetRegister, SetRegister;
    if count > GetRegister(p, r) {
      q, changed := SetRegister(p, r, count), true;
      forall s: Register ensures GetRegister(q, s) == if s == r then count else GetRegister(p, s) {
        SetThenGet(p, r, count, s);
      }
    } else {
      q, changed := p, false;
    }
  }

  lemma AddedToSketch(p: Block, q: Block, elems: seq<Bytes>, e: Bytes, pat: Pattern)
    requires GoodPattern(pat) && SketchOf(p, elems, pat)
    requires forall s: Register :: GetRegister(q, s) == if s == pat(e).0 then Max(GetRegister(p, s), pat(e).1)
      else GetRegister(p, s)
    ensures SketchOf(q, elems + [e], pat)
  {
    hide GetRegister;
    assert (elems + [e])[..|elems + [e]| - 1] == elems;
  }

  /** Adds elements one after another. */
  method AddElements(p: Block, elems: seq<Bytes>, pat: Pattern, ghost before: seq<Bytes>)
    returns (q: Block, updated: bool)
    requires GoodPattern(pat) && SketchOf(p, before, pat)
    ensures SketchOf(q, before + elems, pat) && (!updated ==> q == p)
    ensures updated <==> exists r: Register :: GetRegister(q, r) != GetRegister(p, r)
  {
    hide GetRegister, SketchOf;
    q, updated := p, false;
    assert before + elems[..0] == before;
    for i := 0 to |elems|
      invariant SketchOf(q, before + elems[..i], pat) && (!updated ==> q == p)
      invariant forall r: Register :: GetRegister(p, r) <= GetRegister(q, r)
      invariant updated ==> exists r: Register :: GetRegister(p, r) < GetRegister(q, r)
    {
      var (index, count) := pat(elems[i]);
      ghost var last := q;
      var changed;
      q, changed := DenseSet(q, index, count);
      AddedToSketch(last, q, before + elems[..i], elems[i], pat);
      assert before + elems[..i + 1] == before + elems[..i] + [elems[i]];
      if changed {
        assert GetRegister(p, index) < GetRegister(q, index);
        updated := true;
      } else if updated {
        assert q == last;
      }
    }
    assert elems[..|elems|] == elems;
  }

  // ---- Merging -----------------------------------------------------------

  /** The highest level register `r` has in any of the blocks. */
  function MergedLevel(blocks: seq<Block>, r: Register): nat {
    if blocks == [] then 0 else Max(MergedLevel(blocks[..|blocks| - 1], r), GetRegister(blocks[|blocks| - 1], r))
  }

  type Raw = raw: seq<Byte> | |raw| == 16384 witness ZeroRaw()

  function ZeroRaw(): (raw: seq<Byte>)
    ensures |raw| == 16384 && forall r :: 0 <= r < 16384 ==> raw[r] == 0
  {
    seq(16384, i => 0)
  }

  /** Raises every slot to the level of one block. */
  method MergeOne(raw: Raw, p: Block) returns (merged: Raw)
    ensures forall r: Register :: merged[r] == Max(raw[r], GetRegister(p, r))
  {
    hide GetRegister;
    merged := raw;
    for i := 0 to 16384
      invariant forall r: Register :: merged[r] == if r < i then Max(raw[r], GetRegister(p, r)) else raw[r]
    {
      var val := GetRegister(p, i);
      if val > merged[i] {
        merged := merged[i := val];
      }
    }
  }

  method MergeToRaw(blocks: seq<Block>) returns (raw: Raw)
    ensures forall r: Register :: raw[r] == MergedLevel(blocks, r)
  {
    hide GetRegister;
    raw := ZeroRaw();
    for k := 0 to |blocks|
      invariant forall r: Register :: raw[r] == MergedLevel(blocks[..k], r)
    {
      raw := MergeOne(raw, blocks[k]);
      assert blocks[..k + 1][..k] == blocks[..k];
    }
    assert blocks[..|blocks|] == blocks;
  }

  /** Packs the slots into a block. */
  method RawToDense(p: Block, raw: Raw) returns (q: Block)
    requires forall r: Register :: raw[r] < 64
    ensures forall r: Register :: GetRegister(q, r) == raw[r]
  {
    hide GetRegister, SetRegister;
    q := p;
    for i := 0 to 16384
      invariant forall r: Register :: r < i ==> GetRegister(q, r) == raw[r]
    {
      ghost var before := q;
      q := SetRegister(q, i, raw[i]);
      forall r: Register ensures GetRegister(q, r) == if r == i then raw[i] else GetRegister(before, r) {
        SetThenGet(before, i, raw[i], r);
      }
    }
  }

  /** The elements of several sketches, one after another. */
  function Flatten(parts: seq<seq<Bytes>>): seq<Bytes> {
    if parts == [] then [] else Flatten(parts[..|parts| - 1]) + parts[|parts| - 1]
  }

  ghost predicate SketchesOf(blocks: seq<Block>, parts: seq<seq<Bytes>>, pat: Pattern) {
    |blocks| == |parts| && forall i :: 0 <= i < |blocks| ==> SketchOf(blocks[i], parts[i], pat)
  }

  /** The merged registers are those of the sketch of all the elements together. */
  lemma {:induction false} MergedLevels(blocks: seq<Block>, parts: seq<seq<Bytes>>, pat: Pattern, r: Register)
    requires SketchesOf(blocks, parts, pat)
    ensures MergedLevel(blocks, r) == Highest(Flatten(parts), r, pat)
    decreases |blocks|
  {
    hide GetRegister;
    if blocks != [] {
      var n := |blocks| - 1;
      MergedLevels(blocks[..n], parts[..n], pat, r);
      HighestConcat(Flatten(parts[..n]), parts[n], r, pat);
      assert SketchOf(blocks[n], parts[n], pat);
    }
  }

  lemma {:induction false} MergedSmall(blocks: seq<Block>, r: Register)
    ensures MergedLevel(blocks, r) < 64
    decreases |blocks|
  {
    hide GetRegister;
    if blocks != [] {
      MergedSmall(blocks[..|blocks| - 1], r);
      RegisterSmall(blocks[|blocks| - 1], r);
    }
  }

  /** The union of several sketches, as a sketch. */
  method Merge(blocks: seq<Block>, ghost parts: seq<seq<Bytes>>, ghost pat: Pattern) returns (q: Block)
    requires SketchesOf(blocks, parts, pat)
    ensures SketchOf(q, Flatten(parts), pat)
  {
    hide GetRegister, MergedLevel, Highest, Flatten, SketchesOf;
    var raw := MergeToRaw(blocks);
    forall r: Register ensures raw[r] < 64 && raw[r] == Highest(Flatten(parts), r, pat) {
      MergedSmall(blocks, r);
      MergedLevels(blocks, parts, pat, r);
    }
    q := RawToDense(ZeroBlock(), raw);
  }

  // ---- Stored sketches ---------------------------------------------------

  const MAGIC: Bytes := [72, 89, 76, 76]

  /** A header of sixteen bytes and the packed registers. */
  function CreateHll(): Bytes { MAGIC + [0, 0, 0, 0, 0, 0, 0, 0, 0, 0, 0, 0] + ZeroBlock() }

  predicate IsValidHll(d: Bytes) { |d| == 12304 && d[..4] == MAGIC && d[4] == 0 }

  function Registers(d: Bytes): Block
    requires |d| == 12304
  {
    d[16..]
  }

  function WithRegisters(d: Bytes, p: Block): Bytes
    requires |d| == 12304
  {
    d[..16] + p
  }

  function InvalidateCache(d: Bytes): Bytes
    requires |d| == 12304
  {
    d[15 := SetBit(d[15], 7)]
  }

  /** The cached count, unless the high bit of byte 15 marks it stale. */
  function CachedCount(d: Bytes): Option<nat>
    requires |d| == 12304
  {
    if Bit(d[15], 7) then None else Some(FromLittleEndian(d[8..16]))
  }

  type Estimator = seq<nat> -> nat

  /** The cache is stale or correct. */
  ghost predicate CacheOK(d: Bytes, est: Estimator)
    requires |d| == 12304
  {
    CachedCount(d).None? || CachedCount(d) == Some(est(Histogram(Registers(d))))
  }

  lemma Invalidated(d: Bytes)
    requires |d| == 12304
    ensures var e := InvalidateCache(d);
      |e| == 12304 && Registers(e) == Registers(d) && CachedCount(e).None? && (IsValidHll(d) ==> IsValidHll(e))
  {
    hide Bit, SetBit;
    SetBitAt(d[15], 7, 7);
    assert InvalidateCache(d)[..4] == d[..4];
  }

  lemma Rebuilt(d: Bytes, p: Block)
    requires |d| == 12304
    ensures var e := WithRegisters(d, p); |e| == 12304 && Registers(e) == p && (IsValidHll(d) ==> IsValidHll(e))
  {
    assert WithRegisters(d, p)[..4] == d[..4];
  }

  const COUNT_LIMIT: nat := 0x8000_0000_0000_0000

  /** Writes a count without its highest bit, which marks staleness. */
  function SetCachedCount(d: Bytes, count: nat): Bytes
    requires |d| == 12304
  {
    d[..8] + LittleEndian(count % COUNT_LIMIT, 8) + d[16..]
  }

  lemma {:induction false} LastByte(n: nat, k: nat)
    requires k > 0 && n < 128 * Pow256(k - 1)
    ensures LittleEndian(n, k)[k - 1] < 128
  {
    if k > 1 {
      LastByte(n / 256, k - 1);
    }
  }

  /** A count that was written is read back, up to its highest bit, and the registers stay. */
  lemma Recounted(d: Bytes, count: nat)
    requires |d| == 12304
    ensures var e := SetCachedCount(d, count);
      && |e| == 12304 && Registers(e) == Registers(d) && CachedCount(e) == Some(count % COUNT_LIMIT)
      && (IsValidHll(d) ==> IsValidHll(e))
  {
    assert Pow256(7) == 0x100_0000_0000_0000 && Pow256(8) == 0x1_0000_0000_0000_0000;
    var n := count % COUNT_LIMIT;
    LastByte(n, 8);
    LittleEndianRoundTrip(n, 8);
    hide LittleEndian, FromLittleEndian, Pow256, Bit;
    var e := SetCachedCount(d, count);
    assert e[15] == LittleEndian(n, 8)[7] && e[8..16] == LittleEndian(n, 8) && e[..4] == d[..4] && e[16..] == d[16..];
    LowHasNoTopBit(e[15]);
  }

  /**
    The estimate of a sketch: its cached count, or a new one. The sketch that
    comes back has a fresh cache, and the same registers.
   */
  method HllCount(d: Bytes, est: Estimator) returns (count: nat, d': Bytes)
    requires |d| == 12304 && CacheOK(d, est)
    ensures count == est(Histogram(Registers(d))) && |d'| == 12304 && Registers(d') == Registers(d)
    ensures if CachedCount(d).Some? then d' == d else CachedCount(d') == Some(count % COUNT_LIMIT) && d'[..8] == d[..8]
    ensures CacheOK(d', est) <==> CachedCount(d).Some? || count < COUNT_LIMIT
  {
    hide Histogram, Bit;
    match CachedCount(d)
    case Some(cached) => return cached, d;
    case None =>
      var histo := RegisterHistogram(Registers(d));
      count := est(histo);
      Recounted(d, count);
      d' := SetCachedCount(d, count);
  }

  /** The histogram of a set of elements. */
  function CountLevels(elems: seq<Bytes>, n: nat, v: int, pat: Pattern): nat {
    if n == 0 then 0 else CountLevels(elems, n - 1, v, pat) + (if Highest(elems, n - 1, pat) == v then 1 else 0)
  }

  function HistogramOf(elems: seq<Bytes>, pat: Pattern): seq<nat> { seq(64, v => CountLevels(elems, 16384, v, pat)) }

  lemma {:induction false} SketchCounts(p: Block, elems: seq<Bytes>, pat: Pattern, n: nat, v: int)
    requires n <= 16384 && SketchOf(p, elems, pat)
    ensures CountRegisters(p, n, v) == CountLevels(elems, n, v, pat)
  {
    hide GetRegister, Highest;
    if n > 0 {
      SketchCounts(p, elems, pat, n - 1, v);
      var r: Register := n - 1;
      assert GetRegister(p, r) == Highest(elems, r, pat);
    }
  }

  /** The histogram of a sketch is that of its elements. */
  lemma SketchHistogram(p: Block, elems: seq<Bytes>, pat: Pattern)
    requires SketchOf(p, elems, pat)
    ensures Histogram(p) == HistogramOf(elems, pat)
  {
    hide SketchOf, CountRegisters, CountLevels;
    forall v | 0 <= v < 64 ensures CountRegisters(p, 16384, v) == CountLevels(elems, 16384, v, pat) {
      SketchCounts(p, elems, pat, 16384, v);
    }
  }

  lemma EmptySketch(pat: Pattern)
    ensures SketchOf(ZeroBlock(), [], pat)
  {
    hide GetRegister;
    forall r: Register ensures GetRegister(ZeroBlock(), r) == 0 { ZeroRegister(r); }
  }

  // ---- Commands ----------------------------------------------------------

  /** An estimator that finds nothing in an empty sketch. */
  ghost predicate GoodEstimator(est: Estimator, pat: Pattern) { est(HistogramOf([], pat)) == 0 }

  ghost predicate HllStored(data: Data, key: Bytes, elems: seq<Bytes>, pat: Pattern, est: Estimator) {
    && key in data && IsValidHll(data[key].value)
    && SketchOf(Registers(data[key].value), elems, pat) && CacheOK(data[key].value, est)
  }

  /** The sketches in the store are those of `contents`: the elements ever added to each key. */
  ghost predicate Tracked(data: Data, contents: map<Bytes, seq<Bytes>>, pat: Pattern, est: Estimator) {
    && (forall k :: k in contents ==> HllStored(data, k, contents[k], pat, est))
    && (forall k :: k in data && IsValidHll(data[k].value) ==> k in contents)
  }

  ghost function ElemsAt(contents: map<Bytes, seq<Bytes>>, k: Bytes): seq<Bytes> {
    if k in contents then contents[k] else []
  }

  lemma TrackedWrite(data: Data, contents: map<Bytes, seq<Bytes>>, pat: Pattern, est: Estimator, key: Bytes, item: Item,
                     elems: seq<Bytes>)
    requires Tracked(data, contents, pat, est) && IsValidHll(item.value)
    requires SketchOf(Registers(item.value), elems, pat) && CacheOK(item.value, est)
    ensures Tracked(data[key := item], contents[key := elems], pat, est)
  {
    hide SketchOf, CacheOK, IsValidHll;
    var data', contents' := data[key := item], contents[key := elems];
    forall k | k in contents' ensures HllStored(data', k, contents'[k], pat, est) {
      if k != key { assert HllStored(data, k, contents[k], pat, est); }
    }
  }

  lemma FreshHll(pat: Pattern, est: Estimator)
    requires GoodEstimator(est, pat)
    ensures var d := CreateHll(); IsValidHll(d) && SketchOf(Registers(d), [], pat) && CacheOK(d, est)
  {
    var d := CreateHll();
    assert d[..4] == MAGIC && Registers(d) == ZeroBlock() && d[15] == 0;
    EmptySketch(pat);
    SketchHistogram(ZeroBlock(), [], pat);
    ZeroHasNoBit(7);
    assert d[8..16] == [0, 0, 0, 0, 0, 0, 0, 0];
    assert FromLittleEndian([0, 0, 0, 0, 0, 0, 0, 0]) == 0;
  }

  /** Whether adding elements raises some register. */
  ghost predicate Raises(before: seq<Bytes>, elems: seq<Bytes>, pat: Pattern) {
    exists r: Register :: Highest(before + elems, r, pat) != Highest(before, r, pat)
  }

  ghost predicate OnlyKey(data: Data, data': Data, key: Bytes) {
    forall k :: k != key ==> (k in data' <==> k in data) && (k in data ==> data'[k] == data[k])
  }

  /** The key holds a sketch whose cached count may be used. */
  ghost predicate Fresh(data: Data, key: Bytes) {
    key in data && IsValidHll(data[key].value) && CachedCount(data[key].value).Some?
  }

  /** PFADD: 1 when a register changed; otherwise the store stays as it is. A value that is no sketch is left alone. */
  method PfAdd(tx: Tx, key: Bytes, elems: seq<Bytes>, pat: Pattern, est: Estimator,
               ghost contents: map<Bytes, seq<Bytes>>)
    returns (r: nat, ghost contents': map<Bytes, seq<Bytes>>)
    requires Tracked(tx.data, contents, pat, est) && GoodPattern(pat) && GoodEstimator(est, pat)
    modifies tx
    ensures Tracked(tx.data, contents', pat, est)
      && (if r == 0 then tx.data == old(tx.data) else key in tx.data && OnlyKey(old(tx.data), tx.data, key))
    ensures r == 1 ==> !Fresh(tx.data, key)
    ensures key in old(tx.data) && key !in contents ==> r == 0 && contents' == contents
    ensures key !in old(tx.data) && r == 0 ==> contents' == contents
    ensures key in contents || (key !in old(tx.data) && r == 1) ==>
      contents' == contents[key := ElemsAt(contents, key) + elems]
    ensures key in contents || key !in old(tx.data) ==> r == if Raises(ElemsAt(contents, key), elems, pat) then 1 else 0
  {
    hide SketchOf, CacheOK, IsValidHll, GetRegister, Highest, GoodEstimator, GoodPattern;
    FreshHll(pat, est);
    ghost var before := ElemsAt(contents, key);
    var item := tx.Get(key);
    var d := if item.Some? then item.value.value else CreateHll();
    if !IsValidHll(d) {
      return 0, contents;
    }
    if key in tx.data { assert HllStored(tx.data, key, contents[key], pat, est); }
    assert |d| == 12304 by { ValidLength(d); }
    var q, updated := AddElements(Registers(d), elems, pat, before);
    RaisedRegisters(Registers(d), q, before, elems, pat);
    if !updated {
      contents' := if key in contents then contents[key := before + elems] else contents;
      if key in contents { TrackedSame(tx.data, contents, pat, est, key, before + elems); }
      return 0, contents';
    }
    Rebuilt(d, q);
    var changed := InvalidateCache(WithRegisters(d, q));
    Invalidated(WithRegisters(d, q));
    StaleIsOK(changed, est);
    var stored := Item(changed, TYPE_STRING, ExpiryOf(tx.data, key));
    contents' := contents[key := before + elems];
    TrackedWrite(tx.data, contents, pat, est, key, stored, before + elems);
    tx.Set(key, stored);
    return 1, contents';
  }

  lemma ValidLength(d: Bytes)
    requires IsValidHll(d)
    ensures |d| == 12304
  {
  }

  lemma StaleIsOK(d: Bytes, est: Estimator)
    requires |d| == 12304 && CachedCount(d).None?
    ensures CacheOK(d, est)
  {
  }

  lemma RaisedRegisters(p: Block, q: Block, before: seq<Bytes>, elems: seq<Bytes>, pat: Pattern)
    requires SketchOf(p, before, pat) && SketchOf(q, before + elems, pat)
    ensures (exists r: Register :: GetRegister(q, r) != GetRegister(p, r)) <==> Raises(before, elems, pat)
  {
    hide GetRegister, Highest;
    if r: Register :| GetRegister(q, r) != GetRegister(p, r) {
      assert Highest(before + elems, r, pat) != Highest(before, r, pat);
    }
    if r: Register :| Highest(before + elems, r, pat) != Highest(before, r, pat) {
      assert GetRegister(q, r) != GetRegister(p, r);
    }
  }

  /** Elements that change no register may be counted in. */
  lemma TrackedSame(data: Data, contents: map<Bytes, seq<Bytes>>, pat: Pattern, est: Estimator, key: Bytes,
                    elems: seq<Bytes>)
    requires Tracked(data, contents, pat, est) && key in contents && key in data && IsValidHll(data[key].value)
    requires SketchOf(Registers(data[key].value), elems, pat)
    ensures Tracked(data, contents[key := elems], pat, est)
  {
    hide SketchOf, CacheOK, IsValidHll;
    var contents' := contents[key := elems];
    assert HllStored(data, key, contents[key], pat, est);
    forall k | k in contents' ensures HllStored(data, k, contents'[k], pat, est) {
      if k != key { assert HllStored(data, k, contents[k], pat, est); }
    }
  }

  /** The elements of those keys that hold sketches. */
  ghost function Gathered(contents: map<Bytes, seq<Bytes>>, keys: seq<Bytes>): seq<seq<Bytes>> {
    if keys == [] then []
    else
      var last := keys[|keys| - 1];
      Gathered(contents, keys[..|keys| - 1]) + (if last in contents then [contents[last]] else [])
  }

  /** Reads the sketches among the keys. */
  method LoadSketches(tx: Tx, keys: seq<Bytes>, ghost contents: map<Bytes, seq<Bytes>>, ghost pat: Pattern,
                      ghost est: Estimator)
    returns (blocks: seq<Block>)
    requires Tracked(tx.data, contents, pat, est)
    ensures SketchesOf(blocks, Gathered(contents, keys), pat)
  {
    hide SketchOf, CacheOK, IsValidHll;
    blocks := [];
    for i := 0 to |keys|
      invariant SketchesOf(blocks, Gathered(contents, keys[..i]), pat)
    {
      var key := keys[i];
      var item := tx.Get(key);
      if key in contents { assert HllStored(tx.data, key, contents[key], pat, est); }
      assert keys[..i + 1][..i] == keys[..i];
      if item.Some? && IsValidHll(item.value.value) {
        ValidLength(item.value.value);
        blocks := blocks + [Registers(item.value.value)];
      }
    }
    assert keys[..|keys|] == keys;
  }

  /** PFCOUNT: the estimate of all the elements ever added to the keys. */
  method PfCount(tx: Tx, keys: seq<Bytes>, est: Estimator, ghost contents: map<Bytes, seq<Bytes>>, ghost pat: Pattern)
    returns (count: nat)
    requires Tracked(tx.data, contents, pat, est) && GoodEstimator(est, pat)
    ensures count == est(HistogramOf(Flatten(Gathered(contents, keys)), pat))
  {
    hide SketchOf, CacheOK, IsValidHll, HistogramOf, Histogram;
    if keys == [] {
      return 0;
    }
    if |keys| == 1 {
      GatheredOne(contents, keys);
      var item := tx.Get(keys[0]);
      if keys[0] in contents { assert HllStored(tx.data, keys[0], contents[keys[0]], pat, est); }
      if item.None? || !IsValidHll(item.value.value) {
        return 0;
      }
      ValidLength(item.value.value);
      var dropped;
      count, dropped := HllCount(item.value.value, est);
      SketchHistogram(Registers(item.value.value), contents[keys[0]], pat);
      return;
    }
    var blocks := LoadSketches(tx, keys, contents, pat, est);
    var q := Merge(blocks, Gathered(contents, keys), pat);
    var dense := PackMerged(q);
    StaleIsOK(dense, est);
    var dropped;
    count, dropped := HllCount(dense, est);
    SketchHistogram(q, Flatten(Gathered(contents, keys)), pat);
  }

  lemma GatheredOne(contents: map<Bytes, seq<Bytes>>, keys: seq<Bytes>)
    requires |keys| == 1
    ensures Flatten(Gathered(contents, keys)) == ElemsAt(contents, keys[0])
  {
    hide Flatten;
    var k := keys[0];
    assert keys[..0] == [] && Gathered(contents, []) == [];
    if k in contents {
      assert [] + [contents[k]] == [contents[k]];
      FlattenOne(contents[k]);
    } else {
      assert Gathered(contents, keys) == Gathered(contents, []) + [] == [];
      FlattenNone();
    }
  }

  lemma FlattenOne(x: seq<Bytes>)
    ensures Flatten([x]) == x
  {
    FlattenNone();
    assert [x][..0] == [] && [] + x == x;
  }

  lemma FlattenNone()
    ensures Flatten([]) == []
  {
  }

  /** A sketch with the given registers and a stale cache. */
  method PackMerged(q: Block) returns (d: Bytes)
    ensures |d| == 12304 && IsValidHll(d) && Registers(d) == q && CachedCount(d).None?
  {
    hide Bit, SetBit;
    var d0 := CreateHll();
    assert IsValidHll(d0) by { assert d0[..4] == MAGIC; }
    Rebuilt(d0, q);
    Invalidated(WithRegisters(d0, q));
    d := InvalidateCache(WithRegisters(d0, q));
  }

  /** PFMERGE: the destination becomes the union of the sources, whatever it held. */
  method PfMerge(tx: Tx, dest: Bytes, sources: seq<Bytes>, ghost contents: map<Bytes, seq<Bytes>>, ghost pat: Pattern,
                 ghost est: Estimator)
    returns (ghost contents': map<Bytes, seq<Bytes>>)
    requires Tracked(tx.data, contents, pat, est)
    modifies tx
    ensures contents' == contents[dest := Flatten(Gathered(contents, sources))] && Tracked(tx.data, contents', pat, est)
    ensures dest in tx.data && !Fresh(tx.data, dest) && OnlyKey(old(tx.data), tx.data, dest)
  {
    hide SketchOf, CacheOK, IsValidHll, Flatten;
    ghost var all := Flatten(Gathered(contents, sources));
    var blocks := LoadSketches(tx, sources, contents, pat, est);
    var q := Merge(blocks, Gathered(contents, sources), pat);
    var dense := PackMerged(q);
    StaleIsOK(dense, est);
    contents' := contents[dest := all];
    TrackedWrite(tx.data, contents, pat, est, dest, Item(dense, TYPE_STRING, None), all);
    tx.Set(dest, Item(dense, TYPE_STRING, None));
  }

  // ---- Runs --------------------------------------------------------------

  datatype Op = Add(key: Bytes, elems: seq<Bytes>) | Count(keys: seq<Bytes>) | Union(dest: Bytes, sources: seq<Bytes>)

  /** One command on the elements ever added to each key; `foreign` are the keys that hold other values. */
  ghost function Apply(contents: map<Bytes, seq<Bytes>>, foreign: set<Bytes>, op: Op, pat: Pattern,
                       est: Estimator): (map<Bytes, seq<Bytes>>, set<Bytes>, nat) {
    match op
    case Add(key, elems) =>
      var before := ElemsAt(contents, key);
      var r := if key !in foreign && Raises(before, elems, pat) then 1 else 0;
      (if key in contents || r == 1 then contents[key := before + elems] else contents, foreign, r)
    case Count(keys) => (contents, foreign, est(HistogramOf(Flatten(Gathered(contents, keys)), pat)))
    case Union(dest, sources) => (contents[dest := Flatten(Gathered(contents, sources))], foreign - {dest}, 0)
  }

  /** A run: the replies, and the elements and other keys it leaves. */
  ghost function ApplyAll(contents: map<Bytes, seq<Bytes>>, foreign: set<Bytes>, ops: seq<Op>, pat: Pattern,
                          est: Estimator)
    : (map<Bytes, seq<Bytes>>, set<Bytes>, seq<nat>)
    decreases |ops|
  {
    if ops == [] then (contents, foreign, [])
    else
      var (contents1, foreign1, r) := Apply(contents, foreign, ops[0], pat, est);
      var (contents2, foreign2, replies) := ApplyAll(contents1, foreign1, ops[1..], pat, est);
      (contents2, foreign2, [r] + replies)
  }

  /** Whether a command writes the key: a PFADD that replies 1, or a PFMERGE into it. */
  ghost predicate Writes(contents: map<Bytes, seq<Bytes>>, foreign: set<Bytes>, op: Op, pat: Pattern, est: Estimator,
                         key: Bytes) {
    match op
    case Add(k, _) => k == key && Apply(contents, foreign, op, pat, est).2 == 1
    case Count(_) => false
    case Union(dest, _) => dest == key
  }

  ghost predicate EverWrites(contents: map<Bytes, seq<Bytes>>, foreign: set<Bytes>, ops: seq<Op>, pat: Pattern,
                             est: Estimator, key: Bytes)
    decreases |ops|
  {
    ops != []
    && var (contents1, foreign1, _) := Apply(contents, foreign, ops[0], pat, est);
      Writes(contents, foreign, ops[0], pat, est, key) || EverWrites(contents1, foreign1, ops[1..], pat, est, key)
  }

  ghost predicate ForeignKeys(data: Data, contents: map<Bytes, seq<Bytes>>, foreign: set<Bytes>) {
    forall k :: k in data <==> k in contents || k in foreign
  }

  method Step(tx: Tx, op: Op, pat: Pattern, est: Estimator, ghost contents: map<Bytes, seq<Bytes>>,
              ghost foreign: set<Bytes>)
    returns (reply: nat, ghost contents': map<Bytes, seq<Bytes>>, ghost foreign': set<Bytes>)
    requires Tracked(tx.data, contents, pat, est) && GoodPattern(pat) && GoodEstimator(est, pat)
    requires ForeignKeys(tx.data, contents, foreign) && contents.Keys !! foreign
    modifies tx
    ensures Tracked(tx.data, contents', pat, est) && ForeignKeys(tx.data, contents', foreign')
      && contents'.Keys !! foreign'
    ensures (contents', foreign', reply) == Apply(contents, foreign, op, pat, est)
    ensures forall k :: Fresh(tx.data, k) <==> Fresh(old(tx.data), k) && !Writes(contents, foreign, op, pat, est, k)
  {
    hide IsValidHll, CachedCount, Raises, HistogramOf, Flatten, Gathered, HllStored, GoodPattern, GoodEstimator;
    foreign' := foreign;
    ghost var data := tx.data;
    match op
    case Add(key, elems) =>
      reply, contents' := PfAdd(tx, key, elems, pat, est, contents);
      KeysOfTracked(data, contents, pat, est);
      KeysOfTracked(tx.data, contents', pat, est);
    case Count(keys) =>
      contents' := contents;
      reply := PfCount(tx, keys, est, contents, pat);
    case Union(dest, sources) =>
      contents' := PfMerge(tx, dest, sources, contents, pat, est);
      foreign' := foreign - {dest};
      reply := 0;
  }

  lemma KeysOfTracked(data: Data, contents: map<Bytes, seq<Bytes>>, pat: Pattern, est: Estimator)
    requires Tracked(data, contents, pat, est)
    ensures forall k :: k in contents ==> k in data
  {
  }

  /**
    Any run of PFADD, PFCOUNT and PFMERGE: every PFCOUNT is the estimate of all
    the elements ever added to its keys. A stored cache is fresh afterwards
    exactly when it was fresh before and no command wrote the key.
   */
  method Run(tx: Tx, ops: seq<Op>, pat: Pattern, est: Estimator, ghost contents: map<Bytes, seq<Bytes>>,
             ghost foreign: set<Bytes>)
    returns (replies: seq<nat>, ghost contents': map<Bytes, seq<Bytes>>, ghost foreign': set<Bytes>)
    requires Tracked(tx.data, contents, pat, est) && GoodPattern(pat) && GoodEstimator(est, pat)
    requires ForeignKeys(tx.data, contents, foreign) && contents.Keys !! foreign
    modifies tx
    ensures (contents', foreign', replies) == ApplyAll(contents, foreign, ops, pat, est)
      && Tracked(tx.data, contents', pat, est)
    ensures forall k ::
      Fresh(tx.data, k) <==> Fresh(old(tx.data), k) && !EverWrites(contents, foreign, ops, pat, est, k)
    decreases |ops|
  {
    hide Tracked, GoodPattern, GoodEstimator, ForeignKeys, Apply, Fresh, Writes;
    if ops == [] {
      return [], contents, foreign;
    }
    var reply; ghost var contents1, foreign1;
    reply, contents1, foreign1 := Step(tx, ops[0], pat, est, contents, foreign);
    replies, contents', foreign' := Run(tx, ops[1..], pat, est, contents1, foreign1);
    replies := [reply] + replies;
  }

  function ManyCounts(key: Bytes, n: nat): seq<Op> { seq(n, _ => Count([key])) }

  /** Any number of PFCOUNTs of one key reply the same and leave everything as it is. */
  lemma {:induction false} CountsLeave(contents: map<Bytes, seq<Bytes>>, foreign: set<Bytes>, key: Bytes, n: nat,
                                       pat: Pattern, est: Estimator)
    ensures var count := est(HistogramOf(ElemsAt(contents, key), pat));
      ApplyAll(contents, foreign, ManyCounts(key, n), pat, est) == (contents, foreign, seq(n, _ => count))
  {
    hide HistogramOf, Flatten, Gathered;
    GatheredOne(contents, [key]);
    if n > 0 {
      CountsLeave(contents, foreign, key, n - 1, pat, est);
      assert ManyCounts(key, n)[1..] == ManyCounts(key, n - 1);
      var count := est(HistogramOf(ElemsAt(contents, key), pat));
      assert [count] + seq(n - 1, _ => count) == seq(n, _ => count);
    }
  }

  /** A new element falls on a register that was 0. */
  lemma FirstRaises(e: Bytes, pat: Pattern)
    requires GoodPattern(pat)
    ensures Raises([], [e], pat)
  {
    var r: Register := pat(e).0;
    assert [] + [e] == [e] && [e][..0] == [];
    assert Highest([] + [e], r, pat) != Highest([], r, pat);
  }

  /**
    One PFADD to a new key and then any number of PFCOUNTs: each of them computes the
    count anew, and the cache is still stale.
   */
  method StaysStale(key: Bytes, e: Bytes, n: nat, pat: Pattern, est: Estimator) returns (data: Data, replies: seq<nat>)
    requires GoodPattern(pat) && GoodEstimator(est, pat)
    ensures key in data && IsValidHll(data[key].value) && CachedCount(data[key].value) == None
    ensures replies == [1] + seq(n, _ => est(HistogramOf([e], pat)))
  {
    hide GoodPattern, GoodEstimator, Raises, HistogramOf, Flatten, Gathered, IsValidHll, CachedCount, SketchOf, CacheOK;
    var tx := new Tx(map[]);
    ghost var contents: map<Bytes, seq<Bytes>>;
    ghost var foreign: set<Bytes>;
    var ops := [Add(key, [e])] + ManyCounts(key, n);
    FirstRaises(e, pat);
    assert ops[1..] == ManyCounts(key, n);
    ghost var added: map<Bytes, seq<Bytes>> := map[key := [] + [e]];
    assert [] + [e] == [e];
    assert Apply(map[], {}, ops[0], pat, est) == (added, {}, 1) by { assert map[][key := [] + [e]] == added; }
    CountsLeave(added, {}, key, n, pat, est);
    assert EverWrites(map[], {}, ops, pat, est, key);
    replies, contents, foreign := Run(tx, ops, pat, est, map[], {});
    data := tx.data;
    assert key in contents && HllStored(data, key, contents[key], pat, est);
    assert !Fresh(data, key);
  }
}
