/**
  Scaling Bloom filters stored in bit pages. Hashing and the sizing formulas
  are parameters: any deterministic functions with results in range will do.
  The commands never look at the type of a key, so everything here is about
  every store, whatever the value at the key was written as.
 */
module Bloom {
  import opened ByteStrings
  import opened Store
  import opened Namespace
  import opened Bits
  import opened BloomMeta

  const DEF_CAP: nat := 100
  const DEF_EXP: Byte := 2
  const MAX_HASHES: nat := 64
  const WORD: nat := 0x1_0000_0000_0000_0000

  // ---- Pages -------------------------------------------------------------

  function ZeroPage(): (p: Bytes)
    ensures |p| == 4096 && forall i :: 0 <= i < 4096 ==> p[i] == 0
  {
    seq(4096, i => 0)
  }

  predicate TestBit(page: Bytes, idx: nat) { idx / 8 < |page| && Bit(page[idx / 8], idx % 8) }

  function PutBit(page: Bytes, idx: nat): Bytes
    requires idx / 8 < |page|
  {
    page[idx / 8 := SetBit(page[idx / 8], idx % 8)]
  }

  lemma PutBitAt(page: Bytes, i: nat, j: nat)
    requires i / 8 < |page|
    ensures TestBit(PutBit(page, i), j) <==> i == j || TestBit(page, j)
  {
    if i / 8 == j / 8 { SetBitAt(page[i / 8], i % 8, j % 8); }
    assert i == 8 * (i / 8) + i % 8 && j == 8 * (j / 8) + j % 8;
  }

  lemma ZeroPageBit(idx: nat)
    ensures !TestBit(ZeroPage(), idx)
  {
    ZeroHasNoBit(idx % 8);
  }

  const BF: Bytes := [0, 98, 102, COLON]
  const PAGE: Bytes := [COLON, 112, COLON]

  /** The key of one page of one sub-filter. */
  function PageKey(prefix: Bytes, id: nat, page: nat): Bytes { prefix + BF + Decimal(id) + PAGE + Decimal(page) }

  lemma PageKeyInjective(prefix: Bytes, id: nat, page: nat, id': nat, page': nat)
    ensures PageKey(prefix, id, page) == PageKey(prefix, id', page') ==> id == id' && page == page'
    ensures prefix <= PageKey(prefix, id, page)
  {
    var k, k' := PageKey(prefix, id, page), PageKey(prefix, id', page');
    var a, a' := PAGE + Decimal(page), PAGE + Decimal(page');
    assert k == (prefix + BF) + (Decimal(id) + a) && k' == (prefix + BF) + (Decimal(id') + a');
    if k == k' {
      assert Decimal(id) + a == k[|prefix + BF|..] == Decimal(id') + a';
      DecimalPrefix(id, id', a, a');
      assert Decimal(page) == a[3..] && Decimal(page') == a'[3..];
      DecimalInjective(page, page');
    }
  }

  /** A page as it is read: all zero when it was never written. */
  function PageAt(data: Data, prefix: Bytes, id: nat, page: nat): Bytes {
    if PageKey(prefix, id, page) in data then data[PageKey(prefix, id, page)].value else ZeroPage()
  }

  predicate BitSet(data: Data, prefix: Bytes, id: nat, pos: nat) {
    TestBit(PageAt(data, prefix, id, pos / 32768), pos % 32768)
  }

  // ---- Parameters --------------------------------------------------------

  /** The formulas and hash functions, on 64-bit words (rates by the bits of their doubles). */
  datatype Maths = Maths(
    power: (nat, nat) -> nat, rate: (nat, nat) -> nat, twice: nat -> nat, bits: (nat, nat) -> nat,
    hashes: (nat, nat) -> nat, seed1: nat -> nat, seed2: nat -> nat, hash: (Bytes, nat) -> nat, atMostZero: nat -> bool)

  ghost predicate InRange(maths: Maths) {
    && (forall e: nat, i: nat :: maths.power(e, i) < WORD) && (forall e: nat :: maths.power(e, 0) == 1)
    && (forall r: nat, i: nat :: maths.rate(r, i) < WORD)
    && (forall c: nat, r: nat :: 1 <= maths.bits(c, r) < WORD && 1 <= maths.hashes(c, r) <= MAX_HASHES)
    && (forall i: nat :: maths.seed1(i) < WORD && maths.seed2(i) < WORD)
  }

  /** What a program is built with: the formulas, the default error rate, and whether sums are checked for overflow. */
  datatype Build = Build(maths: Maths, defaultRate: nat, checked: bool)

  ghost predicate GoodBuild(b: Build) { InRange(b.maths) && b.defaultRate < WORD }

  function Sized(capacity: nat, rate: nat, id: nat, maths: Maths): SubFilter {
    SubFilter(id, capacity, 0, rate, maths.hashes(capacity, rate), maths.bits(capacity, rate), maths.seed1(id),
              maths.seed2(id))
  }

  function NewSubFilter(base: nat, rate: nat, expansion: nat, id: nat, maths: Maths): SubFilter {
    Sized(base * maths.power(expansion, id) % WORD, maths.rate(rate, id), id, maths)
  }

  /** Sizing a new sub-filter takes a sum and a product of words. */
  predicate SizeOverflows(base: nat, expansion: nat, id: nat, maths: Maths) {
    id + 1 >= WORD || base * maths.power(expansion, id) >= WORD
  }

  function InitialSubFilter(capacity: nat, rate: nat, expansion: nat, nonScaling: bool, maths: Maths): SubFilter {
    if nonScaling then Sized(capacity, rate, 0, maths) else NewSubFilter(capacity, rate, expansion, 0, maths)
  }

  /** A filter with one empty sub-filter; the expansion rate is stored in a byte. */
  function FreshMeta(capacity: nat, rate: nat, expansion: nat, nonScaling: bool, maths: Maths): Meta {
    Meta(expansion % 256, nonScaling, [InitialSubFilter(capacity, rate, expansion, nonScaling, maths)])
  }

  /** Creating a filter never overflows. */
  lemma FreshSize(capacity: nat, rate: nat, expansion: nat, nonScaling: bool, maths: Maths)
    requires InRange(maths) && capacity < WORD && rate < WORD
    ensures !SizeOverflows(capacity, expansion, 0, maths)
    ensures var f := InitialSubFilter(capacity, rate, expansion, nonScaling, maths);
      Fits(f) && f.id == 0 && f.capacity == capacity
        && f.inserted == 0 && f.numBits >= 1 && 1 <= f.numHashes <= MAX_HASHES
  {
    assert Pow256(8) == WORD && Pow256(4) == 0x1_0000_0000;
    assert capacity * maths.power(expansion, 0) == capacity;
  }

  /** Whether the bit positions of an item are defined: a remainder by 0 is not. */
  predicate Hashable(f: SubFilter) { f.numHashes == 0 || f.numBits > 0 }

  /** The bit positions of an item in one sub-filter: double hashing with 64-bit wrap-around. */
  function Positions(item: Bytes, f: SubFilter, maths: Maths): (ps: seq<nat>)
    requires Hashable(f)
    ensures |ps| == f.numHashes && forall i :: 0 <= i < |ps| ==> ps[i] < f.numBits
  {
    var h1, h2 := maths.hash(item, f.seed1), maths.hash(item, f.seed2);
    seq(f.numHashes, i requires 0 <= i < f.numHashes => (h1 + i * h2) % WORD % f.numBits)
  }

  /** The position number `i` of an item, by its two hashes. */
  lemma PositionsExact(item: Bytes, f: SubFilter, maths: Maths, i: nat)
    requires Hashable(f) && i < f.numHashes
    ensures f.numBits > 0 && Positions(item, f, maths)[i] ==
      (maths.hash(item, f.seed1) + i * maths.hash(item, f.seed2)) % 0x1_0000_0000_0000_0000 % f.numBits
  {
  }

  // ---- What a key reads as -----------------------------------------------

  /** What the value at a key reads as, whatever its type: no filter, or the filter its bytes announce. */
  ghost predicate Reads(data: Data, public: Bytes, prefix: ElementPrefix, m: Option<Meta>) {
    if public !in data then m == None
    else
      && PrefixOf(data[public], LegacyPrefix(public)) == Ok(prefix) && Payload(data[public]).Ok?
      && m == match ReadMeta(Payload(data[public]).value) case Ok(meta) => Some(meta) case Err(_) => None
  }

  /** Every key reads as something, unless the trailer of its sentinel is damaged. */
  lemma ReadsSomething(data: Data, public: Bytes, spare: ElementPrefix) returns (prefix: ElementPrefix, m: Option<Meta>)
    requires public in data ==> PrefixOf(data[public], LegacyPrefix(public)).Ok?
    ensures Reads(data, public, prefix, m)
  {
    prefix, m := spare, None;
    if public in data {
      prefix := PrefixOf(data[public], LegacyPrefix(public)).value;
      m := match ReadMeta(Payload(data[public]).value) case Ok(meta) => Some(meta) case Err(_) => None;
    }
  }

  /**
    A payload reads as missing, as a filter without sub-filters, or as one with
    some, by its first bytes and its length.
   */
  lemma ForeignReads(payload: Bytes)
    ensures |payload| < 4 ==> ReadMeta(payload) == Err(KeyNotFound)
    ensures |payload| >= 4 ==>
      var n := FromBigEndian(payload[2..4]);
      if |payload| < 4 + 60 * n then ReadMeta(payload) == Err(KeyNotFound)
      else ReadMeta(payload).Ok? && |ReadMeta(payload).value.filters| == n
  {
    hide ReadRecord;
    if |payload| >= 4 && |payload| >= 4 + 60 * FromBigEndian(payload[2..4]) {
      ReadRecordsLength(payload, 4, FromBigEndian(payload[2..4]));
    }
  }

  /** The stored meta; a missing key and an unreadable entry give KeyNotFound. */
  method FetchMeta(tx: Tx, public: Bytes, ghost prefix: ElementPrefix, ghost m: Option<Meta>)
    returns (r: Result<Meta, DbError>)
    requires Reads(tx.data, public, prefix, m)
    ensures r == match m case Some(meta) => Ok(meta) case None => Err(KeyNotFound)
  {
    var item := tx.Get(public);
    if item.None? {
      return Err(KeyNotFound);
    }
    match Payload(item.value)
    case Err(e) => return Err(e);
    case Ok(payload) => r := DecodeMeta(payload);
  }

  lemma ReadsFit(data: Data, public: Bytes, prefix: ElementPrefix, m: Meta)
    requires Reads(data, public, prefix, Some(m))
    ensures |m.filters| <= MAX_FILTERS && forall i :: 0 <= i < |m.filters| ==> Fits(m.filters[i])
  {
    hide ReadMeta;
    ReadFits(Payload(data[public]).value);
  }

  // ---- Querying ----------------------------------------------------------

  /** The bit lies beyond the end of its page, where reading it panics. */
  predicate Short(data: Data, prefix: Bytes, id: nat, pos: nat) {
    pos % 32768 / 8 >= |PageAt(data, prefix, id, pos / 32768)|
  }

  /** The sub-filter has all bits of the item; without hash functions there are none to miss. */
  ghost predicate InFilter(data: Data, prefix: Bytes, f: SubFilter, item: Bytes, maths: Maths) {
    Hashable(f) && forall j :: 0 <= j < f.numHashes ==> BitSet(data, prefix, f.id, Positions(item, f, maths)[j])
  }

  /** A probe reads one bit after another up to the first that is not set, and panics on a page that is too short. */
  ghost predicate ProbePanics(data: Data, prefix: Bytes, f: SubFilter, item: Bytes, maths: Maths) {
    || !Hashable(f)
    || (exists j :: 0 <= j < f.numHashes && Short(data, prefix, f.id, Positions(item, f, maths)[j])
                    && forall k :: 0 <= k < j ==> BitSet(data, prefix, f.id, Positions(item, f, maths)[k]))
  }

  ghost predicate Misses(data: Data, prefix: Bytes, f: SubFilter, item: Bytes, maths: Maths) {
    !ProbePanics(data, prefix, f, item, maths) && !InFilter(data, prefix, f, item, maths)
  }

  lemma FoundIsReadable(data: Data, prefix: Bytes, f: SubFilter, item: Bytes, maths: Maths)
    ensures InFilter(data, prefix, f, item, maths) ==> !ProbePanics(data, prefix, f, item, maths)
  {
    if InFilter(data, prefix, f, item, maths) {
      forall j | 0 <= j < f.numHashes ensures !Short(data, prefix, f.id, Positions(item, f, maths)[j]) {
        assert BitSet(data, prefix, f.id, Positions(item, f, maths)[j]);
      }
    }
  }

  /** The sub-filters are asked from the newest on: one of them panics before any says yes. */
  ghost predicate QueryPanics(data: Data, prefix: Bytes, m: Meta, item: Bytes, maths: Maths) {
    exists i :: 0 <= i < |m.filters| && ProbePanics(data, prefix, m.filters[i], item, maths)
                && forall j :: i < j < |m.filters| ==> Misses(data, prefix, m.filters[j], item, maths)
  }

  /** What the item's membership amounts to: some sub-filter has all its bits. */
  ghost predicate Holds(data: Data, prefix: Bytes, m: Meta, item: Bytes, maths: Maths) {
    exists i :: 0 <= i < |m.filters| && InFilter(data, prefix, m.filters[i], item, maths)
  }

  method ProbeFilter(tx: Tx, prefix: Bytes, f: SubFilter, item: Bytes, maths: Maths) returns (found: Option<bool>)
    ensures found == if ProbePanics(tx.data, prefix, f, item, maths) then None
                     else Some(InFilter(tx.data, prefix, f, item, maths))
  {
    if !Hashable(f) {
      return None;
    }
    var ps := Positions(item, f, maths);
    hide Positions;
    for j := 0 to |ps|
      invariant forall k :: 0 <= k < j ==> BitSet(tx.data, prefix, f.id, ps[k])
    {
      var page := PageAt(tx.data, prefix, f.id, ps[j] / 32768);
      if ps[j] % 32768 / 8 >= |page| {
        assert Short(tx.data, prefix, f.id, ps[j]);
        return None;
      }
      if !TestBit(page, ps[j] % 32768) {
        assert !Short(tx.data, prefix, f.id, ps[j]) && !BitSet(tx.data, prefix, f.id, ps[j]);
        return Some(false);
      }
    }
    FoundIsReadable(tx.data, prefix, f, item, maths);
    return Some(true);
  }

  /** BF.EXISTS: whether the item may be present, on every store. */
  method ExistsOne(tx: Tx, public: Bytes, prefix: ElementPrefix, item: Bytes, maths: Maths, ghost m: Option<Meta>)
    returns (r: Result<bool, DbError>)
    requires Reads(tx.data, public, prefix, m)
    ensures r == if m.Some? && QueryPanics(tx.data, prefix.bytes, m.value, item, maths) then Err(Panic)
                 else Ok(m.Some? && Holds(tx.data, prefix.bytes, m.value, item, maths))
  {
    hide InFilter, ProbePanics, Reads;
    var fetched := FetchMeta(tx, public, prefix, m);
    match fetched
    case Err(e) =>
      return if e == KeyNotFound then Ok(false) else Err(e);
    case Ok(meta) =>
      var i := |meta.filters|;
      while i > 0
        invariant 0 <= i <= |meta.filters|
        invariant forall j :: i <= j < |meta.filters| ==> Misses(tx.data, prefix.bytes, meta.filters[j], item, maths)
      {
        i := i - 1;
        var found := ProbeFilter(tx, prefix.bytes, meta.filters[i], item, maths);
        match found {
          case None => return Err(Panic);
          case Some(yes) =>
            if yes {
              return Ok(true);
            }
        }
      }
      return Ok(false);
  }

  // ---- Adding ------------------------------------------------------------

  /** The pages the positions fall on. */
  method LoadPages(tx: Tx, prefix: Bytes, id: nat, ps: seq<nat>) returns (pages: map<nat, Bytes>)
    ensures forall n :: n in pages ==> pages[n] == PageAt(tx.data, prefix, id, n)
    ensures forall i :: 0 <= i < |ps| ==> ps[i] / 32768 in pages
  {
    pages := map[];
    for i := 0 to |ps|
      invariant forall n :: n in pages ==> pages[n] == PageAt(tx.data, prefix, id, n)
      invariant forall j :: 0 <= j < i ==> ps[j] / 32768 in pages
    {
      var n: nat := ps[i] / 32768;
      if n !in pages {
        pages := pages[n := PageAt(tx.data, prefix, id, n)];
      }
    }
  }

  /** The loaded pages are long enough for the positions. */
  ghost predicate Reach(pages: map<nat, Bytes>, ps: seq<nat>) {
    forall i :: 0 <= i < |ps| ==> ps[i] / 32768 in pages && ps[i] % 32768 / 8 < |pages[ps[i] / 32768]|
  }

  ghost predicate SameLengths(pages: map<nat, Bytes>, marked: map<nat, Bytes>) {
    marked.Keys == pages.Keys && forall n :: n in pages ==> |marked[n]| == |pages[n]|
  }

  /** The bit at `pos` once the positions `ps` are set. */
  ghost predicate MarkedAt(pages: map<nat, Bytes>, marked: map<nat, Bytes>, ps: seq<nat>, pos: nat) {
    pos / 32768 in pages && pos / 32768 in marked ==>
      (TestBit(marked[pos / 32768], pos % 32768) <==> TestBit(pages[pos / 32768], pos % 32768) || pos in ps)
  }

  lemma MarkStep(pages: map<nat, Bytes>, marked: map<nat, Bytes>, ps: seq<nat>, p: nat, pos: nat)
    requires marked.Keys == pages.Keys && p / 32768 in marked && p % 32768 / 8 < |marked[p / 32768]|
    requires MarkedAt(pages, marked, ps, pos)
    ensures MarkedAt(pages, marked[p / 32768 := PutBit(marked[p / 32768], p % 32768)], ps + [p], pos)
  {
    var n: nat := p / 32768;
    if pos / 32768 == n {
      PutBitAt(marked[n], p % 32768, pos % 32768);
      assert p == 32768 * n + p % 32768 && pos == 32768 * n + pos % 32768;
    }
  }

  /** Sets the bits on the loaded pages; a page that is too short makes it panic. */
  method MarkPages(pages: map<nat, Bytes>, ps: seq<nat>) returns (r: Option<map<nat, Bytes>>)
    requires forall i :: 0 <= i < |ps| ==> ps[i] / 32768 in pages
    ensures r.Some? <==> Reach(pages, ps)
    ensures r.Some? ==> SameLengths(pages, r.value) && forall pos: nat :: MarkedAt(pages, r.value, ps, pos)
  {
    hide MarkedAt;
    var marked: map<nat, Bytes> := pages;
    MarkNone(pages);
    for i := 0 to |ps|
      invariant SameLengths(pages, marked) && Reach(pages, ps[..i])
        && forall pos: nat :: MarkedAt(pages, marked, ps[..i], pos)
    {
      var p := ps[i];
      var n: nat := p / 32768;
      if p % 32768 / 8 >= |marked[n]| {
        return None;
      }
      ghost var before, done := marked, ps[..i];
      marked := marked[n := PutBit(marked[n], p % 32768)];
      forall pos: nat ensures MarkedAt(pages, marked, done + [p], pos) { MarkStep(pages, before, done, p, pos); }
      assert ps[..i + 1] == done + [p];
    }
    assert ps[..|ps|] == ps;
    r := Some(marked);
  }

  lemma MarkNone(pages: map<nat, Bytes>)
    ensures forall pos: nat :: MarkedAt(pages, pages, [], pos)
  {
  }

  /** Entries of other filters, of other keys, and the public entry itself stay. */
  ghost predicate PagesWritten(data: Data, data': Data, prefix: Bytes, id: nat, pages: map<nat, Bytes>) {
    && (forall n: nat, i: nat :: PageAt(data', prefix, i, n) == if i == id && n in pages then pages[n]
      else PageAt(data, prefix, i, n))
    && (forall n: nat, i: nat :: PageKey(prefix, i, n) in data' ==>
      PageKey(prefix, i, n) in data || (i == id && n in pages))
    && (forall e :: !(prefix <= e) ==> (e in data' <==> e in data) && (e in data ==> data'[e] == data[e]))
  }

  lemma WritePageStep(data: Data, before: Data, prefix: Bytes, id: nat, done: map<nat, Bytes>, n: nat, page: Bytes)
    requires PagesWritten(data, before, prefix, id, done)
    ensures PagesWritten(data,
      before[PageKey(prefix, id, n) := Item(page, TYPE_BLOOM, None)], prefix, id, done[n := page])
  {
    hide PageKey, ZeroPage;
    var after, done' := before[PageKey(prefix, id, n) := Item(page, TYPE_BLOOM, None)], done[n := page];
    PageKeyInjective(prefix, id, n, id, n);
    forall m: nat, i: nat
      ensures PageAt(after, prefix, i, m) == if i == id && m in done' then done'[m] else PageAt(data, prefix, i, m)
      ensures PageKey(prefix, i, m) in after ==> PageKey(prefix, i, m) in data || (i == id && m in done')
    {
      PageKeyInjective(prefix, i, m, id, n);
      assert PageAt(before, prefix, i, m) == if i == id && m in done then done[m] else PageAt(data, prefix, i, m);
    }
  }

  method WritePages(tx: Tx, prefix: Bytes, id: nat, pages: map<nat, Bytes>)
    modifies tx
    ensures PagesWritten(old(tx.data), tx.data, prefix, id, pages)
  {
    ghost var data := tx.data;
    var done: map<nat, Bytes> := map[];
    var left := pages.Keys;
    assert PagesWritten(data, data, prefix, id, done);
    hide PagesWritten, PageKey;
    while left != {}
      invariant left <= pages.Keys && done.Keys == pages.Keys - left && (forall n :: n in done ==> done[n] == pages[n])
      invariant PagesWritten(data, tx.data, prefix, id, done)
      decreases |left|
    {
      var n :| n in left;
      WritePageStep(data, tx.data, prefix, id, done, n, pages[n]);
      tx.Set(PageKey(prefix, id, n), Item(pages[n], TYPE_BLOOM, None));
      done, left := done[n := pages[n]], left - {n};
    }
    assert done == pages;
  }

  function Newest(m: Meta): SubFilter
    requires m.filters != []
  {
    m.filters[|m.filters| - 1]
  }

  predicate NeedsExpansion(m: Meta)
    requires m.filters != []
  {
    Newest(m).inserted >= Newest(m).capacity && !m.nonScaling
  }

  /** A new sub-filter joins once the newest one is full. */
  function Grown(m: Meta, maths: Maths): (g: Meta)
    requires m.filters != []
    ensures g.filters != []
  {
    if !NeedsExpansion(m) then m
    else
      var last := Newest(m);
      var id := (last.id + 1) % WORD;
      var next := NewSubFilter(last.capacity, maths.twice(last.errorRate), m.expansion, id, maths);
      Meta(m.expansion, m.nonScaling, m.filters + [next])
  }

  /** Growth computes a number and a size. */
  predicate GrowthOverflows(m: Meta, maths: Maths)
    requires m.filters != []
  {
    NeedsExpansion(m)
      && (Newest(m).id + 1 >= WORD || SizeOverflows(Newest(m).capacity, m.expansion, Newest(m).id + 1, maths))
  }

  /** The new sub-filter: its size and error rate follow from those of the one before it. */
  lemma GrownSize(m: Meta, maths: Maths)
    requires m.filters != [] && NeedsExpansion(m)
    ensures var last, f := Newest(m), Newest(Grown(m, maths));
      && Grown(m, maths).filters == m.filters + [f] && f.inserted == 0 && (last.id + 1 < WORD ==> f.id == last.id + 1)
      && (last.capacity * maths.power(m.expansion, f.id) < WORD ==>
            f.capacity == last.capacity * maths.power(m.expansion, f.id))
      && f.errorRate == maths.rate(maths.twice(last.errorRate), f.id)
      && f.numBits == maths.bits(f.capacity, f.errorRate) && f.numHashes == maths.hashes(f.capacity, f.errorRate)
      && f.seed1 == maths.seed1(f.id) && f.seed2 == maths.seed2(f.id)
  {
  }

  function Counted(m: Meta): Meta
    requires m.filters != []
  {
    var last := Newest(m);
    var counted := SubFilter(last.id, last.capacity, (last.inserted + 1) % WORD, last.errorRate, last.numHashes,
                             last.numBits, last.seed1, last.seed2);
    Meta(m.expansion, m.nonScaling, m.filters[|m.filters| - 1 := counted])
  }

  /** The newest sub-filter is full, and the meta entry has no place for another one. */
  predicate Capped(m: Meta) { |m.filters| >= MAX_FILTERS && NeedsExpansion(m) }

  /** What is stored after an insertion: a sub-filter beyond the cap is cut off. */
  function Kept(m: Meta, maths: Maths): Meta
    requires m.filters != []
  {
    if Capped(m) then m else Counted(Grown(m, maths))
  }

  /** The meta entry written after an insertion is that of what is kept. */
  lemma KeptBytes(m: Meta, maths: Maths)
    requires m.filters != [] && |m.filters| <= MAX_FILTERS
    ensures MetaBytes(Counted(Grown(m, maths))) == MetaBytes(Kept(m, maths))
  {
    hide Records, BigEndian;
    var c := Counted(Grown(m, maths));
    if Capped(m) {
      assert c.filters[..MAX_FILTERS] == m.filters == m.filters[..MAX_FILTERS];
    }
  }

  /** A new sub-filter can be hashed. */
  lemma GrownSound(m: Meta, maths: Maths)
    requires m.filters != [] && InRange(maths)
    ensures NeedsExpansion(m) ==> var f := Newest(Grown(m, maths)); f.numBits >= 1 && f.numHashes >= 1
  {
  }

  lemma KeptFits(m: Meta, maths: Maths)
    requires InRange(maths) && m.filters != [] && |m.filters| <= MAX_FILTERS
    requires forall i :: 0 <= i < |m.filters| ==> Fits(m.filters[i])
    ensures |Kept(m, maths).filters| <= MAX_FILTERS
    ensures forall i :: 0 <= i < |Kept(m, maths).filters| ==> Fits(Kept(m, maths).filters[i])
  {
    assert Pow256(8) == WORD && Pow256(4) == 0x1_0000_0000;
    var g := Grown(m, maths);
    forall i | 0 <= i < |g.filters| ensures Fits(g.filters[i]) {
    }
  }

  // ---- When adding panics ------------------------------------------------

  /** Some bit of the item cannot be read. */
  ghost predicate Unreadable(data: Data, prefix: Bytes, f: SubFilter, item: Bytes, maths: Maths) {
    || !Hashable(f)
    || exists j :: 0 <= j < f.numHashes && Short(data, prefix, f.id, Positions(item, f, maths)[j])
  }

  /**
    An add panics without sub-filters, on bits that cannot be read, and, where
    sums are checked, on an overflow while growing or counting.
   */
  ghost predicate AddPanics(data: Data, prefix: Bytes, m: Meta, item: Bytes, b: Build) {
    || m.filters == []
    || (b.checked && GrowthOverflows(m, b.maths))
    || Unreadable(data, prefix, Newest(Grown(m, b.maths)), item, b.maths)
    || (b.checked && Newest(Grown(m, b.maths)).inserted + 1 >= WORD
        && !InFilter(data, prefix, Newest(Grown(m, b.maths)), item, b.maths))
  }

  /** Every page is complete. */
  ghost predicate PagesOK(data: Data, prefix: Bytes) {
    forall id: nat, page: nat :: |PageAt(data, prefix, id, page)| == 4096
  }

  lemma CompletePages(data: Data, prefix: Bytes, f: SubFilter, item: Bytes, maths: Maths)
    requires PagesOK(data, prefix)
    ensures Unreadable(data, prefix, f, item, maths) <==> !Hashable(f)
    ensures ProbePanics(data, prefix, f, item, maths) <==> !Hashable(f)
  {
    hide PageAt, Positions;
  }

  /** With complete pages and unchecked sums, the meta alone decides whether an add panics. */
  lemma AddPanicsExactly(data: Data, prefix: Bytes, m: Meta, item: Bytes, b: Build)
    requires PagesOK(data, prefix) && InRange(b.maths) && !b.checked
    ensures AddPanics(data, prefix, m, item, b) <==>
      m.filters == [] || (!NeedsExpansion(m) && Newest(m).numBits == 0 && Newest(m).numHashes > 0)
  {
    hide PagesOK, Unreadable;
    if m.filters != [] {
      GrownSound(m, b.maths);
      CompletePages(data, prefix, Newest(Grown(m, b.maths)), item, b.maths);
    }
  }

  /** With complete pages, a query panics exactly when it gets to a sub-filter with hash functions but no bits. */
  lemma QueryPanicsExactly(data: Data, prefix: Bytes, m: Meta, item: Bytes, maths: Maths)
    requires PagesOK(data, prefix)
    ensures QueryPanics(data, prefix, m, item, maths) <==>
      exists i :: 0 <= i < |m.filters| && m.filters[i].numBits == 0 && m.filters[i].numHashes > 0
                  && forall j :: i < j < |m.filters| ==> !InFilter(data, prefix, m.filters[j], item, maths)
                                                         && Hashable(m.filters[j])
  {
    hide PagesOK, ProbePanics, InFilter;
    forall i | 0 <= i < |m.filters|
      ensures ProbePanics(data, prefix, m.filters[i], item, maths) <==> !Hashable(m.filters[i])
    {
      CompletePages(data, prefix, m.filters[i], item, maths);
    }
    if i :| 0 <= i < |m.filters| && m.filters[i].numBits == 0 && m.filters[i].numHashes > 0
            && forall j :: i < j < |m.filters| ==>
              !InFilter(data, prefix, m.filters[j], item, maths) && Hashable(m.filters[j])
    {
      assert ProbePanics(data, prefix, m.filters[i], item, maths);
    }
  }

  // ---- The store after an add --------------------------------------------

  /** Exactly the bits at `ps` of one sub-filter are added. */
  ghost predicate BitsAdded(data: Data, data': Data, prefix: Bytes, id: nat, ps: seq<nat>) {
    forall i: nat, pos: nat :: BitSet(data', prefix, i, pos) <==> BitSet(data, prefix, i, pos) || (i == id && pos in ps)
  }

  /** No page changes its length, and pages are new for one sub-filter only. */
  ghost predicate PagesStay(data: Data, data': Data, prefix: Bytes, id: nat) {
    forall i: nat, n: nat ::
      && |PageAt(data', prefix, i, n)| == |PageAt(data, prefix, i, n)|
      && (PageKey(prefix, i, n) in data' ==> PageKey(prefix, i, n) in data || i == id)
  }

  ghost predicate SamePages(data: Data, data': Data, prefix: Bytes) {
    forall i: nat, n: nat :: Lookup(data', PageKey(prefix, i, n)) == Lookup(data, PageKey(prefix, i, n))
  }

  /** What an add that does not panic did: `data` and `m` became `data'` and `m'`. */
  ghost predicate Inserted(data: Data, data': Data, prefix: Bytes, m: Meta, m': Meta, item: Bytes, maths: Maths,
                           reply: nat)
    requires m.filters != []
  {
    var f := Newest(Grown(m, maths));
    if InFilter(data, prefix, f, item, maths) then reply == 0 && m' == m && SamePages(data, data', prefix)
    else
      && reply == 1 && m' == Kept(m, maths) && Hashable(f)
      && BitsAdded(data, data', prefix, f.id, Positions(item, f, maths)) && PagesStay(data, data', prefix, f.id)
  }

  lemma PagesMarked(data: Data, data': Data, prefix: Bytes, id: nat, ps: seq<nat>, pages: map<nat, Bytes>,
                    marked: map<nat, Bytes>)
    requires SameLengths(pages, marked) && PagesWritten(data, data', prefix, id, marked)
    requires forall n :: n in pages ==> pages[n] == PageAt(data, prefix, id, n)
    requires forall i :: 0 <= i < |ps| ==> ps[i] / 32768 in pages
    requires forall pos: nat :: MarkedAt(pages, marked, ps, pos)
    ensures BitsAdded(data, data', prefix, id, ps) && PagesStay(data, data', prefix, id)
  {
    hide PageKey, ZeroPage, PageAt, TestBit;
    forall i: nat, pos: nat
      ensures BitSet(data', prefix, i, pos) <==> BitSet(data, prefix, i, pos) || (i == id && pos in ps)
    {
      assert MarkedAt(pages, marked, ps, pos);
      if pos in ps {
        var j :| 0 <= j < |ps| && ps[j] == pos;
      }
    }
  }

  /** Writing the meta entry stores it and leaves the pages alone. */
  lemma MetaWritten(data: Data, public: Bytes, prefix: ElementPrefix, m: Meta, kept: Meta)
    requires Placed(public, prefix) && MetaBytes(m) == MetaBytes(kept) && |kept.filters| <= MAX_FILTERS
    requires forall i :: 0 <= i < |kept.filters| ==> Fits(kept.filters[i])
    ensures var data' := data[public := SentinelItem(data, public, MetaBytes(m), TYPE_BLOOM, prefix)];
      Reads(data', public, prefix, Some(kept)) && SamePages(data, data', prefix.bytes)
  {
    MetaRoundTrip(kept);
    hide MetaBytes, ReadMeta, PageKey;
    SentinelRoundTrip(MetaBytes(m), TYPE_BLOOM, prefix, ExpiryOf(data, public), LegacyPrefix(public));
    hide EncodeSentinel, Payload, PrefixOf;
    forall i: nat, n: nat ensures PageKey(prefix.bytes, i, n) != public {
      PageKeyInjective(prefix.bytes, i, n, i, n);
    }
  }

  /** Pages that are the same hold the same bits. */
  lemma SamePagesBits(data: Data, data': Data, prefix: Bytes)
    requires SamePages(data, data', prefix)
    ensures forall i: nat, n: nat :: PageAt(data', prefix, i, n) == PageAt(data, prefix, i, n)
    ensures forall i: nat, pos: nat :: BitSet(data', prefix, i, pos) <==> BitSet(data, prefix, i, pos)
    ensures forall i: nat, pos: nat :: Short(data', prefix, i, pos) <==> Short(data, prefix, i, pos)
  {
    hide PageKey, ZeroPage, TestBit;
    forall i: nat, n: nat ensures PageAt(data', prefix, i, n) == PageAt(data, prefix, i, n) {
      assert Lookup(data', PageKey(prefix, i, n)) == Lookup(data, PageKey(prefix, i, n));
    }
  }

  lemma SamePagesAfter(data: Data, written: Data, data': Data, prefix: Bytes, id: nat, ps: seq<nat>)
    requires BitsAdded(data, written, prefix, id, ps) && PagesStay(data, written, prefix, id)
      && SamePages(written, data', prefix)
    ensures BitsAdded(data, data', prefix, id, ps) && PagesStay(data, data', prefix, id)
  {
    SamePagesBits(written, data', prefix);
    hide BitSet, PageKey, PageAt;
    forall i: nat, n: nat ensures PageKey(prefix, i, n) in data' <==> PageKey(prefix, i, n) in written {
      assert Lookup(data', PageKey(prefix, i, n)) == Lookup(written, PageKey(prefix, i, n));
    }
  }

  /** Whether the item's bits are all set on the loaded pages, read up to the first one that is not. */
  method AllSet(ghost data: Data, ghost prefix: Bytes, f: SubFilter, item: Bytes, maths: Maths, pages: map<nat, Bytes>)
    returns (all: Option<bool>)
    requires Hashable(f) && forall n :: n in pages ==> pages[n] == PageAt(data, prefix, f.id, n)
    requires forall i :: 0 <= i < f.numHashes ==> Positions(item, f, maths)[i] / 32768 in pages
    ensures all.None? ==> Unreadable(data, prefix, f, item, maths)
    ensures all == Some(true) ==> InFilter(data, prefix, f, item, maths) && !Unreadable(data, prefix, f, item, maths)
    ensures all == Some(false) ==> !InFilter(data, prefix, f, item, maths)
  {
    var ps := Positions(item, f, maths);
    hide Positions;
    for i := 0 to |ps|
      invariant forall j :: 0 <= j < i ==> BitSet(data, prefix, f.id, ps[j])
    {
      var page := pages[ps[i] / 32768];
      if ps[i] % 32768 / 8 >= |page| {
        assert Short(data, prefix, f.id, ps[i]);
        return None;
      }
      if !TestBit(page, ps[i] % 32768) {
        assert !BitSet(data, prefix, f.id, ps[i]);
        return Some(false);
      }
    }
    FoundIsReadable(data, prefix, f, item, maths);
    forall j | 0 <= j < |ps| ensures !Short(data, prefix, f.id, ps[j]) {
      assert BitSet(data, prefix, f.id, ps[j]);
    }
    return Some(true);
  }

  /** The pages reach as far as the positions exactly when every bit can be read. */
  lemma ReachIsReadable(data: Data, prefix: Bytes, f: SubFilter, item: Bytes, maths: Maths, pages: map<nat, Bytes>)
    requires Hashable(f) && forall n :: n in pages ==> pages[n] == PageAt(data, prefix, f.id, n)
    requires forall i :: 0 <= i < f.numHashes ==> Positions(item, f, maths)[i] / 32768 in pages
    ensures Reach(pages, Positions(item, f, maths)) <==> !Unreadable(data, prefix, f, item, maths)
  {
    hide Positions, PageAt;
    var ps := Positions(item, f, maths);
    if Reach(pages, ps) {
      forall j | 0 <= j < |ps| ensures !Short(data, prefix, f.id, ps[j]) {
      }
    } else {
      var i :| 0 <= i < |ps| && ps[i] % 32768 / 8 >= |pages[ps[i] / 32768]|;
      assert Short(data, prefix, f.id, ps[i]);
    }
  }

  /** Adds an item to the newest sub-filter of a filter read as `meta`, as the code does it step by step. */
  method AddTo(tx: Tx, public: Bytes, prefix: ElementPrefix, meta: Meta, item: Bytes, b: Build)
    returns (r: Result<nat, DbError>, ghost after: Meta)
    requires Reads(tx.data, public, prefix, Some(meta)) && Placed(public, prefix) && GoodBuild(b)
    modifies tx
    ensures r == Err(Panic) <==> AddPanics(old(tx.data), prefix.bytes, meta, item, b)
    ensures OnlyValue(old(tx.data), tx.data, public, prefix.bytes)
    ensures r != Err(Panic) ==>
      && meta.filters != [] && r.Ok? && Reads(tx.data, public, prefix, Some(after))
      && Inserted(old(tx.data), tx.data, prefix.bytes, meta, after, item, b.maths, r.value)
      && (r.value == 0 ==> tx.data == old(tx.data))
  {
    OnlyValueSame(tx.data, public, prefix.bytes);
    SamePagesSame(tx.data, prefix.bytes);
    after := meta;
    if meta.filters == [] {
      return Err(Panic), after;
    }
    if b.checked && GrowthOverflows(meta, b.maths) {
      return Err(Panic), after;
    }
    hide Reads, GrowthOverflows, Grown, Newest, InFilter, SamePages, OnlyValue, Placed, Kept;
    hide BitsAdded, PagesStay, Positions;
    var grown := Grown(meta, b.maths);
    var f := Newest(grown);
    if !Hashable(f) {
      return Err(Panic), after;
    }
    var ps := Positions(item, f, b.maths);
    var pages := LoadPages(tx, prefix.bytes, f.id, ps);
    ReachIsReadable(tx.data, prefix.bytes, f, item, b.maths, pages);
    hide Unreadable;
    var all := AllSet(tx.data, prefix.bytes, f, item, b.maths, pages);
    match all {
      case None => return Err(Panic), after;
      case Some(yes) =>
        if yes {
          return Ok(0), after;
        }
    }
    after := Kept(meta, b.maths);
    r := CommitAdd(tx, public, prefix, meta, grown, f.id, ps, pages, b);
  }

  lemma OnlyValueSame(data: Data, public: Bytes, prefix: Bytes)
    ensures OnlyValue(data, data, public, prefix)
  {
  }

  lemma OnlyValueChain(d0: Data, d1: Data, d2: Data, public: Bytes, prefix: Bytes)
    requires OnlyValue(d0, d1, public, prefix) && OnlyValue(d1, d2, public, prefix)
    ensures OnlyValue(d0, d2, public, prefix)
  {
  }

  lemma SamePagesSame(data: Data, prefix: Bytes)
    ensures SamePages(data, data, prefix)
  {
  }

  lemma WritesBelow(data: Data, data': Data, public: Bytes, prefix: Bytes, id: nat, pages: map<nat, Bytes>)
    requires PagesWritten(data, data', prefix, id, pages)
    ensures OnlyValue(data, data', public, prefix)
      && (!(prefix <= public) ==> Lookup(data', public) == Lookup(data, public))
  {
  }

  /** What an add to a stored filter may rely on. */
  lemma CommitFacts(data: Data, public: Bytes, prefix: ElementPrefix, m: Meta, b: Build)
    requires Reads(data, public, prefix, Some(m)) && GoodBuild(b) && m.filters != []
    ensures public in data && PrefixOf(data[public], LegacyPrefix(public)) == Ok(prefix)
    ensures MetaBytes(Counted(Grown(m, b.maths))) == MetaBytes(Kept(m, b.maths))
    ensures var kept := Kept(m, b.maths);
      |kept.filters| <= MAX_FILTERS && forall i :: 0 <= i < |kept.filters| ==> Fits(kept.filters[i])
  {
    ReadsFit(data, public, prefix, m);
    KeptFits(m, b.maths);
    KeptBytes(m, b.maths);
  }

  /** Writes the pages with the new bits, and the meta with the new count. */
  method CommitAdd(tx: Tx, public: Bytes, prefix: ElementPrefix, ghost m: Meta, grown: Meta, id: nat, ps: seq<nat>,
                   pages: map<nat, Bytes>, b: Build)
    returns (r: Result<nat, DbError>)
    requires Reads(tx.data, public, prefix, Some(m)) && Placed(public, prefix) && GoodBuild(b)
    requires m.filters != [] && grown == Grown(m, b.maths)
    requires forall n :: n in pages ==> pages[n] == PageAt(tx.data, prefix.bytes, id, n)
    requires forall i :: 0 <= i < |ps| ==> ps[i] / 32768 in pages
    modifies tx
    ensures r == Err(Panic) <==> !Reach(pages, ps) || (b.checked && Newest(grown).inserted + 1 >= WORD)
    ensures OnlyValue(old(tx.data), tx.data, public, prefix.bytes)
    ensures r != Err(Panic) ==>
      && r == Ok(1) && Reads(tx.data, public, prefix, Some(Kept(m, b.maths)))
      && BitsAdded(old(tx.data), tx.data, prefix.bytes, id, ps) && PagesStay(old(tx.data), tx.data, prefix.bytes, id)
  {
    hide Reads, Kept, BitsAdded, PagesStay, Grown, MetaBytes, Counted, Fits, Reach, SameLengths;
    hide MarkedAt, PagesWritten, PageAt, OnlyValue, Placed, GoodBuild, InRange;
    ghost var data := tx.data;
    OnlyValueSame(data, public, prefix.bytes);
    CommitFacts(data, public, prefix, m, b);
    var marked := MarkPages(pages, ps);
    match marked
    case None => return Err(Panic);
    case Some(changed) =>
      WritePages(tx, prefix.bytes, id, changed);
      ghost var written := tx.data;
      PagesMarked(data, written, prefix.bytes, id, ps, pages, changed);
      WritesBelow(data, written, public, prefix.bytes, id, changed);
      if b.checked && Newest(grown).inserted + 1 >= WORD {
        return Err(Panic);
      }
      var bytes := EncodeMeta(Counted(grown));
      MetaWritten(written, public, prefix, Counted(grown), Kept(m, b.maths));
      var w := WriteSentinel(tx, public, bytes, TYPE_BLOOM, prefix);
      SamePagesAfter(data, written, tx.data, prefix.bytes, id, ps);
      SentinelOnly(data, written, public, prefix.bytes, tx.data[public]);
      r := if w.Ok? then Ok(1) else Err(Corrupt);
  }

  lemma SentinelOnly(data: Data, written: Data, public: Bytes, prefix: Bytes, item: Item)
    requires OnlyValue(data, written, public, prefix)
    ensures OnlyValue(data, written[public := item], public, prefix)
  {
  }

  /** Writes the meta of a new filter. */
  method CreateFilter(tx: Tx, public: Bytes, prefix: ElementPrefix, setup: Setup, b: Build)
    requires Reads(tx.data, public, prefix, None) && Placed(public, prefix) && GoodBuild(b) && SetupFits(setup)
    modifies tx
    ensures Reads(tx.data, public, prefix, Some(MetaOf(setup, b.maths)))
      && SamePages(old(tx.data), tx.data, prefix.bytes)
    ensures OnlyValue(old(tx.data), tx.data, public, prefix.bytes)
  {
    var m := MetaOf(setup, b.maths);
    FreshSize(setup.capacity, setup.rate, ExpansionOf(setup), setup.nonScaling, b.maths);
    OnlyValueSame(tx.data, public, prefix.bytes);
    SentinelOnly(tx.data, tx.data, public, prefix.bytes,
                 SentinelItem(tx.data, public, MetaBytes(m), TYPE_BLOOM, prefix));
    assert m.filters == [m.filters[0]] && forall i :: 0 <= i < |m.filters| ==> Fits(m.filters[i]);
    hide MetaBytes, SamePages, MetaOf, OnlyValue, SentinelItem, Fits;
    var bytes := EncodeMeta(m);
    MetaWritten(tx.data, public, prefix, m, m);
    var w := WriteSentinel(tx, public, bytes, TYPE_BLOOM, prefix);
  }

  /** The parameters of a new filter. */
  datatype Setup = Setup(capacity: nat, rate: nat, expansion: int, nonScaling: bool)

  predicate SetupFits(setup: Setup) { setup.capacity < WORD && setup.rate < WORD }

  /** An expansion below 1 stands for the default. */
  function ExpansionOf(setup: Setup): nat { if setup.expansion < 1 then DEF_EXP else setup.expansion }

  /** The parameters with the defaults for those that are not usable. */
  function WithDefaults(setup: Setup, b: Build): Setup {
    Setup(if setup.capacity == 0 then DEF_CAP else setup.capacity,
          if b.maths.atMostZero(setup.rate) then b.defaultRate else setup.rate, ExpansionOf(setup), setup.nonScaling)
  }

  function DefaultSetup(b: Build): Setup { Setup(DEF_CAP, b.defaultRate, DEF_EXP, false) }

  function MetaOf(setup: Setup, maths: Maths): Meta {
    FreshMeta(setup.capacity, setup.rate, ExpansionOf(setup), setup.nonScaling, maths)
  }

  /** The filter an add goes to: a key that reads as missing gets one with default parameters. */
  function Target(m: Option<Meta>, b: Build): Meta {
    match m case Some(meta) => meta case None => MetaOf(DefaultSetup(b), b.maths)
  }

  /** A key without a filter gets one of capacity 100 that doubles. */
  lemma DefaultFilter(b: Build)
    requires InRange(b.maths)
    ensures var m := Target(None, b);
      m.expansion == 2 && !m.nonScaling && |m.filters| == 1 && m.filters[0].capacity == 100
        && m.filters[0].inserted == 0
  {
    assert 100 * b.maths.power(2, 0) == 100;
  }

  /** Pages that are the same make no difference to an add. */
  lemma AddAlike(data: Data, data': Data, prefix: Bytes, m: Meta, item: Bytes, b: Build)
    requires SamePages(data, data', prefix)
    ensures AddPanics(data, prefix, m, item, b) <==> AddPanics(data', prefix, m, item, b)
    ensures m.filters != [] ==>
      var f := Newest(Grown(m, b.maths));
      InFilter(data, prefix, f, item, b.maths) <==> InFilter(data', prefix, f, item, b.maths)
  {
    SamePagesBits(data, data', prefix);
    hide BitSet, Short, SamePages, Grown, Newest, GrowthOverflows, Positions;
  }

  lemma InsertedAlike(data: Data, created: Data, data': Data, prefix: Bytes, m: Meta, m': Meta, item: Bytes, b: Build,
                      reply: nat)
    requires SamePages(data, created, prefix) && m.filters != []
    requires Inserted(created, data', prefix, m, m', item, b.maths, reply)
    ensures Inserted(data, data', prefix, m, m', item, b.maths, reply)
  {
    AddAlike(data, created, prefix, m, item, b);
    SamePagesBits(data, created, prefix);
    hide BitSet, Grown, Newest, InFilter, Positions, PageKey, PageAt;
    forall i: nat, n: nat ensures PageKey(prefix, i, n) in created <==> PageKey(prefix, i, n) in data {
      assert Lookup(created, PageKey(prefix, i, n)) == Lookup(data, PageKey(prefix, i, n));
    }
  }

  /**
    Adding one item, on every store: a key that is missing, or whose value reads
    as missing, gets a filter with default parameters first.
   */
  method AddOne(tx: Tx, public: Bytes, prefix: ElementPrefix, item: Bytes, b: Build, ghost m: Option<Meta>)
    returns (r: Result<nat, DbError>, ghost after: Meta)
    requires Reads(tx.data, public, prefix, m) && Placed(public, prefix) && GoodBuild(b)
    modifies tx
    ensures r == Err(Panic) <==> AddPanics(old(tx.data), prefix.bytes, Target(m, b), item, b)
    ensures OnlyValue(old(tx.data), tx.data, public, prefix.bytes)
    ensures r != Err(Panic) ==>
      && Target(m, b).filters != [] && r.Ok? && Reads(tx.data, public, prefix, Some(after))
      && Inserted(old(tx.data), tx.data, prefix.bytes, Target(m, b), after, item, b.maths, r.value)
      && (m.Some? && r.value == 0 ==> tx.data == old(tx.data))
  {
    hide Reads, OnlyValue, Inserted, AddPanics, MetaOf, SamePages, InRange, Placed;
    ghost var data := tx.data;
    var fetched := FetchMeta(tx, public, prefix, m);
    match fetched {
      case Ok(meta) => r, after := AddTo(tx, public, prefix, meta, item, b);
      case Err(_) =>
        CreateFilter(tx, public, prefix, DefaultSetup(b), b);
        ghost var created := tx.data;
        var meta := MetaOf(DefaultSetup(b), b.maths);
        AddAlike(data, created, prefix.bytes, meta, item, b);
        r, after := AddTo(tx, public, prefix, meta, item, b);
        OnlyValueChain(data, created, tx.data, public, prefix.bytes);
        if r.Ok? {
          InsertedAlike(data, created, tx.data, prefix.bytes, meta, after, item, b, r.value);
        }
    }
  }

  // ---- Values of other types ---------------------------------------------

  /** A string of four bytes reads as a filter without sub-filters: adding to it panics. */
  lemma HollowString(public: Bytes, item: Bytes, b: Build)
    ensures var data, prefix := map[public := Item([97, 98, 0, 0], TYPE_STRING, None)], Legacy(LegacyPrefix(public));
      Reads(data, public, prefix, Some(Meta(98, true, [])))
        && AddPanics(data, prefix.bytes, Meta(98, true, []), item, b)
  {
    var value: Bytes := [97, 98, 0, 0];
    assert value[2..4] == [0, 0] && FromBigEndian([0, 0]) == 0;
    assert ReadRecords(value, 4, 0) == [];
  }

  /** A header for one sub-filter that does not scale, and a record of zeros but for one hash function. */
  function ZeroBitsBytes(): Bytes { seq(64, i => if i == 0 || i == 3 || i == 36 then 1 else 0) }

  lemma {:induction false} ZerosRead(r: Bytes, from: nat, to: nat)
    requires from <= to <= |r| && forall i :: from <= i < to ==> r[i] == 0
    ensures FromLittleEndian(r[from..to]) == 0
    decreases |r| - from
  {
    if from < to {
      ZerosRead(r, from + 1, to);
      assert r[from..to][1..] == r[from + 1..to];
    }
  }

  lemma ZeroBitsRecord(r: Bytes)
    requires |r| == 60 && r[32] == 1 && forall i :: 0 <= i < 60 && i != 32 ==> r[i] == 0
    ensures ReadRecord(r) == SubFilter(0, 0, 0, 0, 1, 0, 0, 0)
  {
    assert FromLittleEndian(r[32..36]) ==
      1 + 256 * FromLittleEndian(r[33..36]) by { assert r[32..36][1..] == r[33..36]; }
    hide FromLittleEndian;
    ZerosRead(r, 0, 8);
    ZerosRead(r, 8, 16);
    ZerosRead(r, 16, 24);
    ZerosRead(r, 24, 32);
    ZerosRead(r, 33, 36);
    ZerosRead(r, 36, 44);
    ZerosRead(r, 44, 52);
    ZerosRead(r, 52, 60);
  }

  lemma ZeroBitsRead()
    ensures ReadMeta(ZeroBitsBytes()) == Ok(Meta(0, true, [SubFilter(0, 0, 0, 0, 1, 0, 0, 0)]))
  {
    hide ReadMeta, ReadRecord;
    var d := ZeroBitsBytes();
    ZeroBitsRecord(d[4..64]);
    OneFilter(d);
  }

  lemma OneFilter(d: Bytes)
    requires |d| == 64 && d[2] == 0 && d[3] == 1
    ensures ReadMeta(d) == Ok(Meta(d[1], d[0] % 2 == 1, [ReadRecord(d[4..64])]))
  {
    hide ReadRecord;
    assert FromBigEndian(d[2..4]) == 1 by {
      assert d[2..4] == [0, 1] && [0, 1][..1] == [0];
      assert FromBigEndian([0]) == 0;
    }
    NextRecord(d, 4, 1);
    assert ReadRecords(d, 64, 0) == [] && 4 + 60 == 64;
    assert ReadRecords(d, 4, 1) == [ReadRecord(d[4..64])] + [] == [ReadRecord(d[4..64])];
    var n := FromBigEndian(d[2..4]);
    assert ReadMeta(d) == Ok(Meta(d[1], d[0] % 2 == 1, ReadRecords(d, 4, n)));
  }

  /** A string of 64 bytes reads as one sub-filter with a hash function and no bits: adding and asking both panic. */
  lemma ZeroBitsString(public: Bytes, item: Bytes, b: Build)
    ensures var data, prefix := map[public := Item(ZeroBitsBytes(), TYPE_STRING, None)], Legacy(LegacyPrefix(public));
      var m := Meta(0, true, [SubFilter(0, 0, 0, 0, 1, 0, 0, 0)]);
      && Reads(data, public, prefix, Some(m))
      && AddPanics(data, prefix.bytes, m, item, b) && QueryPanics(data, prefix.bytes, m, item, b.maths)
  {
    ZeroBitsRead();
    hide ReadMeta, ZeroBitsBytes;
    var data: Data := map[public := Item(ZeroBitsBytes(), TYPE_STRING, None)];
    var m := Meta(0, true, [SubFilter(0, 0, 0, 0, 1, 0, 0, 0)]);
    assert !NeedsExpansion(m) && !Hashable(m.filters[0]);
    assert ProbePanics(data, LegacyPrefix(public), m.filters[0], item, b.maths);
  }

  /**
    A hash with one field reads as missing, and its field `bf:0:p:0` lies where
    the first page would: empty, it makes an add panic.
   */
  lemma FieldAsPage(public: Bytes, item: Bytes, b: Build)
    requires GoodBuild(b) && Newest(MetaOf(DefaultSetup(b), b.maths)).numBits <= 32768
    ensures var prefix := Legacy(LegacyPrefix(public));
      var field := prefix.bytes + [0] + [98, 102, COLON, ZERO, COLON, 112, COLON, ZERO];
      var data := map[public := Item(BigEndian(1, 4), TYPE_HASH, None), field := Item([], TYPE_HASH, None)];
      Reads(data, public, prefix, None) && AddPanics(data, prefix.bytes, Target(None, b), item, b)
  {
    var prefix, m := LegacyPrefix(public), MetaOf(DefaultSetup(b), b.maths);
    var field := prefix + [0] + [98, 102, COLON, ZERO, COLON, 112, COLON, ZERO];
    var data: Data := map[public := Item(BigEndian(1, 4), TYPE_HASH, None), field := Item([], TYPE_HASH, None)];
    assert Decimal(0) == [ZERO] && field == PageKey(prefix, 0, 0);
    assert |field| > |public|;
    assert BigEndian(1, 4)[2..4] == BigEndian(1, 4)[2..] == [0, 1] by { OneInFour(); }
    FreshSize(DEF_CAP, b.defaultRate, DEF_EXP, false, b.maths);
    var f := Newest(m);
    assert !NeedsExpansion(m) && Grown(m, b.maths) == m && f.id == 0;
    hide PageKey, Positions, InRange;
    var pos := Positions(item, f, b.maths)[0];
    assert Short(data, prefix, 0, pos);
  }

  lemma OneInFour()
    ensures BigEndian(1, 4) == [0, 0, 0, 1]
  {
    assert BigEndian(0, 3) == [0, 0, 0];
  }
}
