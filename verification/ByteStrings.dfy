/** Byte strings, the vocabulary every other module is written in. */
module ByteStrings {

  type Byte = b: int | 0 <= b < 256
  type Bytes = seq<Byte>

  datatype Option<+T> = None | Some(value: T)

  datatype Result<+T, +E> = Ok(value: T) | Err(error: E)

  const STAR: Byte := 0x2A       // *
  const PLUS: Byte := 0x2B       // +
  const MINUS: Byte := 0x2D      // -
  const ZERO: Byte := 0x30       // 0
  const NINE: Byte := 0x39       // 9
  const COLON: Byte := 0x3A      // :
  const QUESTION: Byte := 0x3F   // ?
  const OPEN: Byte := 0x5B       // [
  const BACKSLASH: Byte := 0x5C  // \
  const CLOSE: Byte := 0x5D      // ]
  const CARET: Byte := 0x5E      // ^

  // ---- Fixed-width integers ----------------------------------------------

  function Pow256(k: nat): nat { if k == 0 then 1 else 256 * Pow256(k - 1) }

  function BigEndian(n: nat, k: nat): (b: Bytes)
    ensures |b| == k
  {
    if k == 0 then [] else BigEndian(n / 256, k - 1) + [n % 256]
  }

  function FromBigEndian(b: Bytes): nat {
    if b == [] then 0 else 256 * FromBigEndian(b[..|b| - 1]) + b[|b| - 1]
  }

  lemma {:induction false} BigEndianRoundTrip(n: nat, k: nat)
    requires n < Pow256(k)
    ensures FromBigEndian(BigEndian(n, k)) == n
  {
    if k > 0 {
      BigEndianRoundTrip(n / 256, k - 1);
      var b := BigEndian(n, k);
      assert b[..k - 1] == BigEndian(n / 256, k - 1);
    }
  }

  /** The last byte counts ones. */
  lemma {:induction false} BigEndianSmall(n: Byte, k: nat)
    requires k > 0
    ensures var b := BigEndian(n, k); b[k - 1] == n && forall i :: 0 <= i < k - 1 ==> b[i] == 0
  {
    if k > 1 { BigEndianSmall(0, k - 1); }
  }

  lemma {:induction false} BigEndianOf(b: Bytes)
    ensures BigEndian(FromBigEndian(b), |b|) == b
  {
    if b != [] {
      BigEndianOf(b[..|b| - 1]);
      assert b == b[..|b| - 1] + [b[|b| - 1]];
    }
  }

  function LittleEndian(n: nat, k: nat): (b: Bytes)
    ensures |b| == k
  {
    if k == 0 then [] else [n % 256] + LittleEndian(n / 256, k - 1)
  }

  function FromLittleEndian(b: Bytes): nat {
    if b == [] then 0 else b[0] + 256 * FromLittleEndian(b[1..])
  }

  lemma {:induction false} LittleEndianRoundTrip(n: nat, k: nat)
    requires n < Pow256(k)
    ensures FromLittleEndian(LittleEndian(n, k)) == n
  {
    if k > 0 {
      LittleEndianRoundTrip(n / 256, k - 1);
      assert LittleEndian(n, k)[1..] == LittleEndian(n / 256, k - 1);
    }
  }

  /** The first byte counts ones. */
  lemma {:induction false} LittleEndianSmall(n: Byte, k: nat)
    requires k > 0
    ensures var b := LittleEndian(n, k); b[0] == n && forall i :: 1 <= i < k ==> b[i] == 0
  {
    if k > 1 { LittleEndianSmall(0, k - 1); }
  }

  lemma {:induction false} LittleEndianBound(b: Bytes)
    ensures FromLittleEndian(b) < Pow256(|b|)
  {
    if b != [] { LittleEndianBound(b[1..]); }
  }

  lemma {:induction false} BigEndianBound(b: Bytes)
    ensures FromBigEndian(b) < Pow256(|b|)
  {
    if b != [] { BigEndianBound(b[..|b| - 1]); }
  }

  // ---- Decimal numerals --------------------------------------------------

  predicate IsDigit(b: Byte) { ZERO <= b <= NINE }

  function Decimal(n: nat): (b: Bytes)
    ensures b != [] && forall i :: 0 <= i < |b| ==> IsDigit(b[i])
  {
    if n < 10 then [ZERO + n] else Decimal(n / 10) + [ZERO + n % 10]
  }

  function FromDecimal(b: Bytes): nat
    requires forall i :: 0 <= i < |b| ==> IsDigit(b[i])
  {
    if b == [] then 0 else assert IsDigit(b[|b| - 1]); 10 * FromDecimal(b[..|b| - 1]) + (b[|b| - 1] - ZERO)
  }

  lemma {:induction false} DecimalRoundTrip(n: nat)
    ensures FromDecimal(Decimal(n)) == n
  {
    var b := Decimal(n);
    if n >= 10 {
      DecimalRoundTrip(n / 10);
      assert b[..|b| - 1] == Decimal(n / 10);
    } else {
      assert b[..0] == [];
    }
  }

  /** The highest digit comes first. */
  lemma DecimalTens(tens: nat, ones: nat)
    requires 1 <= tens < 10 && ones < 10
    ensures Decimal(10 * tens + ones) == [ZERO + tens, ZERO + ones]
  {
  }

  lemma DecimalInjective(m: nat, n: nat)
    requires Decimal(m) == Decimal(n)
    ensures m == n
  {
    DecimalRoundTrip(m);
    DecimalRoundTrip(n);
  }

  /** How many digits a byte string starts with. */
  function DigitRun(b: Bytes): nat { if b == [] || !IsDigit(b[0]) then 0 else 1 + DigitRun(b[1..]) }

  lemma {:induction false} DigitRunOf(digits: Bytes, rest: Bytes)
    requires forall i :: 0 <= i < |digits| ==> IsDigit(digits[i])
    requires rest != [] ==> !IsDigit(rest[0])
    ensures DigitRun(digits + rest) == |digits|
  {
    if digits == [] {
      assert digits + rest == rest;
    } else {
      assert (digits + rest)[1..] == digits[1..] + rest;
      DigitRunOf(digits[1..], rest);
    }
  }

  /** Two numerals, each followed by a byte that is no digit, can be told apart from what follows. */
  lemma DecimalPrefix(m: nat, n: nat, a: Bytes, b: Bytes)
    requires Decimal(m) + a == Decimal(n) + b
    requires a != [] ==> !IsDigit(a[0])
    requires b != [] ==> !IsDigit(b[0])
    ensures m == n && a == b
  {
    DigitRunOf(Decimal(m), a);
    DigitRunOf(Decimal(n), b);
    var all := Decimal(m) + a;
    assert Decimal(m) == all[..|Decimal(m)|] == Decimal(n);
    assert a == all[|Decimal(m)|..] == b;
    DecimalInjective(m, n);
  }

  // ---- Prefixes ----------------------------------------------------------

  predicate Apart(p: Bytes, q: Bytes) { !(p <= q) && !(q <= p) }

  /** Two prefixes of one key are comparable. */
  lemma Comparable(p: Bytes, q: Bytes, e: Bytes)
    ensures p <= e && q <= e ==> p <= q || q <= p
  {
    if p <= e && q <= e {
      assert p == e[..|p|] && q == e[..|q|];
    }
  }

  // ---- Index ranges ------------------------------------------------------

  /** A possibly negative range, clamped to `size` positions; nothing when it is empty. */
  function Clamp(start: int, end: int, size: nat): (r: Option<(nat, nat)>)
    ensures r.Some? ==> r.value.0 <= r.value.1 < size
  {
    var start := if start < 0 then start + size else start;
    var end := if end < 0 then end + size else end;
    var start := if start < 0 then 0 else start;
    var end := if end >= size then size - 1 else end;
    if start > end || start >= size then None else Some((start, end))
  }

  /** A negative index counts from the end. */
  predicate Between(start: int, end: int, size: nat, k: int) {
    (if start < 0 then start + size else start) <= k <= (if end < 0 then end + size else end)
  }

  /** The clamped range holds exactly the positions the indices enclose. */
  lemma ClampExact(start: int, end: int, size: nat, k: nat)
    requires k < size
    ensures var r := Clamp(start, end, size);
      (r.Some? && r.value.0 <= k <= r.value.1) <==> Between(start, end, size, k)
  {
  }
}
