/** The meta entry of a scaling Bloom filter and its encoding. */
module BloomMeta {
  import opened ByteStrings
  import opened Store

  const MAX_FILTERS: nat := 65535

  /** The parameters of one sub-filter; the error rate is known by the bits of its double. */
  datatype SubFilter = SubFilter(id: nat, capacity: nat, inserted: nat,
    errorRate: nat, numHashes: nat, numBits: nat, seed1: nat, seed2: nat)

  datatype Meta = Meta(expansion: Byte, nonScaling: bool, filters: seq<SubFilter>)

  /** The fields are within the widths they are stored in. */
  predicate Fits(f: SubFilter) {
    && f.id < Pow256(8) && f.capacity < Pow256(8) && f.inserted < Pow256(8) && f.errorRate < Pow256(8)
    && f.numHashes < Pow256(4) && f.numBits < Pow256(8) && f.seed1 < Pow256(8) && f.seed2 < Pow256(8)
  }

  function Record(f: SubFilter): (r: Bytes)
    ensures |r| == 60
  {
    LittleEndian(f.id, 8) + LittleEndian(f.capacity, 8) + LittleEndian(f.inserted, 8) + LittleEndian(f.errorRate, 8)
    + LittleEndian(f.numHashes, 4) + LittleEndian(f.numBits, 8) + LittleEndian(f.seed1, 8) + LittleEndian(f.seed2, 8)
  }

  function ReadRecord(r: Bytes): SubFilter
    requires |r| == 60
  {
    SubFilter(FromLittleEndian(r[0..8]), FromLittleEndian(r[8..16]),
              FromLittleEndian(r[16..24]), FromLittleEndian(r[24..32]),
              FromLittleEndian(r[32..36]), FromLittleEndian(r[36..44]),
              FromLittleEndian(r[44..52]), FromLittleEndian(r[52..60]))
  }

  lemma RecordRoundTrip(f: SubFilter)
    requires Fits(f)
    ensures ReadRecord(Record(f)) == f
  {
    var r := Record(f);
    RecordSlices(f);
    LittleEndianRoundTrip(f.id, 8);
    LittleEndianRoundTrip(f.capacity, 8);
    LittleEndianRoundTrip(f.inserted, 8);
    LittleEndianRoundTrip(f.errorRate, 8);
    LittleEndianRoundTrip(f.numHashes, 4);
    LittleEndianRoundTrip(f.numBits, 8);
    LittleEndianRoundTrip(f.seed1, 8);
    LittleEndianRoundTrip(f.seed2, 8);
  }

  lemma RecordSlices(f: SubFilter)
    ensures var r := Record(f);
      && r[0..8] == LittleEndian(f.id, 8) && r[8..16] == LittleEndian(f.capacity, 8)
        && r[16..24] == LittleEndian(f.inserted, 8)
      && r[24..32] == LittleEndian(f.errorRate, 8)
        && r[32..36] == LittleEndian(f.numHashes, 4) && r[36..44] == LittleEndian(f.numBits, 8)
      && r[44..52] == LittleEndian(f.seed1, 8) && r[52..60] == LittleEndian(f.seed2, 8)
  {
  }

  function Records(fs: seq<SubFilter>): (r: Bytes)
    ensures |r| == 60 * |fs|
  {
    if fs == [] then [] else Record(fs[0]) + Records(fs[1..])
  }

  function Min(a: nat, b: nat): nat { if a < b then a else b }

  /** The meta entry: a header, and one record for each of at most 65535 sub-filters. */
  function MetaBytes(m: Meta): Bytes {
    var n := Min(|m.filters|, MAX_FILTERS);
    [if m.nonScaling then 1 else 0, m.expansion] + BigEndian(n, 2) + Records(m.filters[..n])
  }

  function ReadRecords(data: Bytes, at: nat, n: nat): seq<SubFilter>
    requires at + 60 * n <= |data|
    decreases n
  {
    if n == 0 then [] else [ReadRecord(data[at..at + 60])] + ReadRecords(data, at + 60, n - 1)
  }

  function ReadMeta(data: Bytes): Result<Meta, DbError> {
    if |data| < 4 then Err(KeyNotFound)
    else
      var n := FromBigEndian(data[2..4]);
      if |data| < 4 + 60 * n then Err(KeyNotFound)
      else Ok(Meta(data[1], data[0] % 2 == 1, ReadRecords(data, 4, n)))
  }

  lemma {:induction false} ReadRecordsLength(data: Bytes, at: nat, n: nat)
    requires at + 60 * n <= |data|
    ensures |ReadRecords(data, at, n)| == n
    decreases n
  {
    hide ReadRecord;
    if n > 0 { ReadRecordsLength(data, at + 60, n - 1); }
  }

  lemma ReadRecordFits(r: Bytes)
    requires |r| == 60
    ensures Fits(ReadRecord(r))
  {
    hide FromLittleEndian, Pow256;
    LittleEndianBound(r[0..8]);
    LittleEndianBound(r[8..16]);
    LittleEndianBound(r[16..24]);
    LittleEndianBound(r[24..32]);
    LittleEndianBound(r[32..36]);
    LittleEndianBound(r[36..44]);
    LittleEndianBound(r[44..52]);
    LittleEndianBound(r[52..60]);
  }

  lemma {:induction false} ReadRecordsFit(data: Bytes, at: nat, n: nat)
    requires at + 60 * n <= |data|
    ensures forall i :: 0 <= i < |ReadRecords(data, at, n)| ==> Fits(ReadRecords(data, at, n)[i])
    decreases n
  {
    hide ReadRecord, Fits;
    if n > 0 {
      ReadRecordsFit(data, at + 60, n - 1);
      ReadRecordFits(data[at..at + 60]);
    }
  }

  /** Whatever the bytes are, what is read from them fits the widths it is stored in. */
  lemma ReadFits(data: Bytes)
    ensures ReadMeta(data).Ok? ==>
      var m := ReadMeta(data).value;
      |m.filters| <= MAX_FILTERS && forall i :: 0 <= i < |m.filters| ==> Fits(m.filters[i])
  {
    hide ReadRecords, Fits;
    if ReadMeta(data).Ok? {
      var n := FromBigEndian(data[2..4]);
      BigEndianBound(data[2..4]);
      assert Pow256(2) == 65536;
      ReadRecordsLength(data, 4, n);
      ReadRecordsFit(data, 4, n);
    }
  }

  lemma {:induction false} RecordsRoundTrip(head: Bytes, fs: seq<SubFilter>)
    requires forall i :: 0 <= i < |fs| ==> Fits(fs[i])
    ensures ReadRecords(head + Records(fs), |head|, |fs|) == fs
    decreases |fs|
  {
    if fs != [] {
      hide Record, ReadRecord, Records, ReadRecords, Fits;
      var first, rest := Record(fs[0]), Records(fs[1..]);
      FirstRecord(fs);
      Regroup(head, first, rest);
      NextRecord(head + Records(fs), |head|, |fs|);
      RecordRoundTrip(fs[0]);
      RecordsRoundTrip(head + first, fs[1..]);
      assert fs == [fs[0]] + fs[1..];
    }
  }

  lemma FirstRecord(fs: seq<SubFilter>)
    requires fs != []
    ensures Records(fs) == Record(fs[0]) + Records(fs[1..])
  {
  }

  lemma NextRecord(data: Bytes, at: nat, n: nat)
    requires n > 0 && at + 60 * n <= |data|
    ensures ReadRecords(data, at, n) == [ReadRecord(data[at..at + 60])] + ReadRecords(data, at + 60, n - 1)
  {
  }

  lemma Regroup(head: Bytes, first: Bytes, rest: Bytes)
    ensures head + (first + rest) == (head + first) + rest
    ensures (head + (first + rest))[|head|..|head| + |first|] == first
  {
  }

  /** A meta entry reads back as it was written exactly when it holds at most 65535 sub-filters. */
  lemma MetaRoundTrip(m: Meta)
    requires forall i :: 0 <= i < |m.filters| ==> Fits(m.filters[i])
    ensures ReadMeta(MetaBytes(m)) == Ok(m) <==> |m.filters| <= MAX_FILTERS
    ensures ReadMeta(MetaBytes(m)) == Ok(Meta(m.expansion, m.nonScaling, m.filters[..Min(|m.filters|, MAX_FILTERS)]))
  {
    hide Records, ReadRecords, Fits, BigEndian, FromBigEndian;
    var n := Min(|m.filters|, MAX_FILTERS);
    var head := [if m.nonScaling then 1 else 0, m.expansion] + BigEndian(n, 2);
    var data := MetaBytes(m);
    assert Pow256(2) == 65536;
    BigEndianRoundTrip(n, 2);
    assert data == head + Records(m.filters[..n]) && data[2..4] == BigEndian(n, 2);
    RecordsRoundTrip(head, m.filters[..n]);
    assert |m.filters| <= MAX_FILTERS ==> m.filters[..n] == m.filters;
  }

  /** Builds the meta entry record by record. */
  method EncodeMeta(m: Meta) returns (buf: Bytes)
    ensures buf == MetaBytes(m)
  {
    var n := Min(|m.filters|, MAX_FILTERS);
    buf := [if m.nonScaling then 1 else 0, m.expansion] + BigEndian(n, 2);
    ghost var head, fs := buf, m.filters[..n];
    for i := 0 to n
      invariant buf == head + Records(fs[..i])
    {
      RecordsNext(fs, i);
      hide Records, Record;
      assert head + Records(fs[..i]) + Record(fs[i]) == head + (Records(fs[..i]) + Record(fs[i]));
      buf := buf + Record(m.filters[i]);
    }
    assert fs[..n] == fs;
  }

  lemma RecordsNext(fs: seq<SubFilter>, i: nat)
    requires i < |fs|
    ensures Records(fs[..i + 1]) == Records(fs[..i]) + Record(fs[i])
  {
    RecordsAppend(fs[..i], fs[i]);
    assert fs[..i + 1] == fs[..i] + [fs[i]];
  }

  lemma {:induction false} RecordsAppend(fs: seq<SubFilter>, f: SubFilter)
    ensures Records(fs + [f]) == Records(fs) + Record(f)
    decreases |fs|
  {
    if fs == [] {
      assert [] + [f] == [f] && [f][1..] == [];
    } else {
      assert (fs + [f])[1..] == fs[1..] + [f];
      RecordsAppend(fs[1..], f);
    }
  }

  /** Reads the meta entry record by record. */
  method DecodeMeta(data: Bytes) returns (r: Result<Meta, DbError>)
    ensures r == ReadMeta(data)
  {
    if |data| < 4 {
      return Err(KeyNotFound);
    }
    var n := FromBigEndian(data[2..4]);
    if |data| < 4 + 60 * n {
      return Err(KeyNotFound);
    }
    var filters := DecodeRecords(data, n);
    return Ok(Meta(data[1], data[0] % 2 == 1, filters));
  }

  method DecodeRecords(data: Bytes, n: nat) returns (filters: seq<SubFilter>)
    requires 4 + 60 * n <= |data|
    ensures filters == ReadRecords(data, 4, n)
  {
    hide ReadRecord;
    filters := [];
    var at := 4;
    ghost var rest := ReadRecords(data, 4, n);
    for i := 0 to n
      invariant at == 4 + 60 * i && rest == ReadRecords(data, at, n - i) && filters + rest == ReadRecords(data, 4, n)
    {
      filters, at := filters + [ReadRecord(data[at..at + 60])], at + 60;
      rest := rest[1..];
    }
  }
}
