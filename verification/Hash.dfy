/** Hashes: a sentinel that counts the fields, one entry per field, and HSCAN's paging. */
module Hash {
  import opened ByteStrings
  import opened Store
  import opened Namespace
  import opened Pattern
  import Scan

  function FieldKey(prefix: Bytes, field: Bytes): Bytes { prefix + [0] + field }

  lemma FieldKeyInjective(prefix: Bytes, f: Bytes, g: Bytes)
    ensures FieldKey(prefix, f) == FieldKey(prefix, g) ==> f == g
    ensures prefix <= FieldKey(prefix, f)
  {
    assert f == FieldKey(prefix, f)[|prefix| + 1..] && g == FieldKey(prefix, g)[|prefix| + 1..];
  }

  type Fields = map<Bytes, Bytes>

  function FieldAt(fields: Fields, f: Bytes): Option<Item> {
    if f in fields then Some(Item(fields[f], TYPE_HASH, None)) else None
  }

  /** The entries of the fields under the prefix. */
  ghost predicate FieldsStored(data: Data, prefix: Bytes, fields: Fields) {
    forall f :: Lookup(data, FieldKey(prefix, f)) == FieldAt(fields, f)
  }

  ghost predicate CountStored(data: Data, public: Bytes, prefix: ElementPrefix, n: nat) {
    && public in data && BaseType(data[public].meta) == TYPE_HASH && n < Pow256(4)
    && Payload(data[public]) == Ok(BigEndian(n, 4)) && PrefixOf(data[public], LegacyPrefix(public)) == Ok(prefix)
  }

  /** The hash `fields` is stored: the sentinel exists exactly when there is a field, and then counts them. */
  ghost predicate Stored(data: Data, public: Bytes, prefix: ElementPrefix, fields: Fields) {
    && FieldsStored(data, prefix.bytes, fields)
    && (public in data <==> fields != map[])
    && (fields != map[] ==> CountStored(data, public, prefix, |fields|))
  }

  /** What a key holds: a hash, or a value of another type with whatever lies where a hash's fields would. */
  datatype Held = HashOf(fields: Fields) | Other(item: Item, cells: Data)

  ghost predicate OtherStored(data: Data, public: Bytes, prefix: ElementPrefix, item: Item, cells: Data) {
    && Lookup(data, public) == Some(item) && BaseType(item.meta) != TYPE_HASH
      && PrefixOf(item, LegacyPrefix(public)) == Ok(prefix)
    && forall f :: Lookup(data, FieldKey(prefix.bytes, f)) == Lookup(cells, f)
  }

  ghost predicate HeldAt(data: Data, public: Bytes, prefix: ElementPrefix, held: Held) {
    match held
    case HashOf(fields) => Stored(data, public, prefix, fields)
    case Other(item, cells) => OtherStored(data, public, prefix, item, cells)
  }

  /** The value at the entry of a field. */
  function ValueAt(held: Held, f: Bytes): Option<Bytes> {
    match held
    case HashOf(fields) => if f in fields then Some(fields[f]) else None
    case Other(_, cells) => if f in cells then Some(cells[f].value) else None
  }

  /** One more entry of a field. */
  function Put(held: Held, f: Bytes, v: Bytes): Held {
    match held
    case HashOf(fields) => HashOf(fields[f := v])
    case Other(item, cells) => Other(item, cells[f := Item(v, TYPE_HASH, None)])
  }

  function Size(held: Held): nat { match held case HashOf(fields) => |fields| case Other(_, _) => 0 }

  /** The count a sentinel holds. */
  function ReadCount(item: Option<Item>): Result<nat, DbError> {
    if item.None? then Err(KeyNotFound)
    else if BaseType(item.value.meta) != TYPE_HASH then Err(WrongType)
    else match Payload(item.value)
      case Err(e) => Err(e)
      case Ok(val) => if |val| < 4 then Err(KeyNotFound) else Ok(FromBigEndian(val[0..4]))
  }

  /** The count, a missing sentinel standing for none. */
  function CountOrZero(item: Option<Item>): Result<nat, DbError> {
    match ReadCount(item)
    case Err(e) => if e == KeyNotFound then Ok(0) else Err(e)
    case Ok(n) => Ok(n)
  }

  lemma CountRead(data: Data, public: Bytes, prefix: ElementPrefix, fields: Fields)
    requires Stored(data, public, prefix, fields)
    ensures ReadCount(Lookup(data, public)) == if fields == map[] then Err(KeyNotFound) else Ok(|fields|)
    ensures FieldsStored(data, prefix.bytes, fields)
    ensures public in data ==> PrefixOf(data[public], LegacyPrefix(public)) == Ok(prefix)
  {
    if fields != map[] {
      var val := BigEndian(|fields|, 4);
      BigEndianRoundTrip(|fields|, 4);
      assert val[0..4] == val;
    }
  }

  /** Writing the count stores it and leaves the fields alone. */
  lemma CountWritten(data: Data, public: Bytes, prefix: ElementPrefix, fields: Fields)
    requires Placed(public, prefix) && FieldsStored(data, prefix.bytes, fields) && fields != map[]
      && |fields| < Pow256(4)
    ensures Stored(data[public := SentinelItem(data, public, BigEndian(|fields|, 4), TYPE_HASH, prefix)],
                   public, prefix, fields)
  {
    hide FieldKey, BigEndian, EncodeSentinel;
    SentinelRoundTrip(BigEndian(|fields|, 4), TYPE_HASH, prefix, ExpiryOf(data, public), LegacyPrefix(public));
    forall f ensures FieldKey(prefix.bytes, f) != public { FieldKeyInjective(prefix.bytes, f, f); }
  }

  /** The prefix a write uses. */
  function WritePrefix(item: Option<Item>, public: Bytes, spare: ElementPrefix): Result<ElementPrefix, DbError> {
    if item.Some? then PrefixOf(item.value, LegacyPrefix(public)) else Ok(spare)
  }

  /** The prefix a read uses. */
  function ReadPrefix(item: Option<Item>, public: Bytes): Result<ElementPrefix, DbError> {
    WritePrefix(item, public, Legacy(LegacyPrefix(public)))
  }

  /** The key before a write: a value that exists under its own prefix, or none under the fresh one. */
  ghost predicate Ready(data: Data, public: Bytes, spare: ElementPrefix, prefix: ElementPrefix, held: Held) {
    Placed(public, prefix) && HeldAt(data, public, prefix, held) && (held == HashOf(map[]) ==> prefix == spare)
  }

  lemma SetField(data: Data, prefix: Bytes, fields: Fields, f: Bytes, v: Bytes)
    requires FieldsStored(data, prefix, fields)
    ensures FieldsStored(data[FieldKey(prefix, f) := Item(v, TYPE_HASH, None)], prefix, fields[f := v])
  {
    hide FieldKey;
    forall g ensures FieldKey(prefix, f) == FieldKey(prefix, g) ==> f == g { FieldKeyInjective(prefix, f, g); }
  }

  lemma DropField(data: Data, prefix: Bytes, fields: Fields, f: Bytes)
    requires FieldsStored(data, prefix, fields)
    ensures FieldsStored(data - {FieldKey(prefix, f)}, prefix, fields - {f})
  {
    hide FieldKey;
    forall g ensures FieldKey(prefix, f) == FieldKey(prefix, g) ==> f == g { FieldKeyInjective(prefix, f, g); }
  }

  /** The fields after setting the pairs from index `i` on; a name without a value is ignored. */
  function SetPairs(fields: Fields, pairs: seq<Bytes>, i: nat): Fields
    decreases |pairs| - i
  {
    if i + 1 >= |pairs| then fields else SetPairs(fields[pairs[i] := pairs[i + 1]], pairs, i + 2)
  }

  lemma {:induction false} SetPairsSize(fields: Fields, pairs: seq<Bytes>, i: nat)
    ensures |fields| <= |SetPairs(fields, pairs, i)| <= |fields| + (if i < |pairs| then |pairs| - i else 0)
    ensures |pairs| >= i + 2 ==> SetPairs(fields, pairs, i) != map[]
    decreases |pairs| - i
  {
    if i + 1 < |pairs| {
      var next := fields[pairs[i] := pairs[i + 1]];
      SetPairsSize(next, pairs, i + 2);
      assert |next| == |fields| + (if pairs[i] in fields then 0 else 1) by { MapSize(fields, pairs[i], pairs[i + 1]); }
      assert next != map[] by { assert pairs[i] in next; }
    }
  }

  /** The pair number `j` gives a value to the field `f`. */
  predicate Gives(pairs: seq<Bytes>, j: nat, f: Bytes) { 2 * j + 1 < |pairs| && pairs[2 * j] == f }

  ghost predicate LastGiven(pairs: seq<Bytes>, j: nat, f: Bytes) {
    Gives(pairs, j, f) && forall k: nat :: Gives(pairs, k, f) ==> k <= j
  }

  ghost predicate NotGiven(pairs: seq<Bytes>, f: Bytes) { forall k: nat :: !Gives(pairs, k, f) }

  /** A field holds the value given last; a field that is not given stays. */
  lemma {:induction false} SetPairsExact(fields: Fields, pairs: seq<Bytes>, n: nat, f: Bytes)
    ensures var after := SetPairs(fields, pairs, 2 * n);
      && (forall j: nat :: j >= n && LastGiven(pairs, j, f) ==> f in after && after[f] == pairs[2 * j + 1])
      && ((forall j: nat :: j >= n ==> !Gives(pairs, j, f)) ==> FieldAt(after, f) == FieldAt(fields, f))
    decreases |pairs| - 2 * n
  {
    if 2 * n + 1 < |pairs| {
      var next := fields[pairs[2 * n] := pairs[2 * n + 1]];
      assert 2 * n + 2 == 2 * (n + 1);
      SetPairsExact(next, pairs, n + 1, f);
      assert Gives(pairs, n, pairs[2 * n]);
      if LastGiven(pairs, n, f) { assert forall j: nat :: j >= n + 1 ==> !Gives(pairs, j, f); }
    }
  }

  /** What HSET leaves at the entries of the fields. */
  ghost predicate PairsWritten(data: Data, data': Data, prefix: Bytes, pairs: seq<Bytes>) {
    && (forall f, j: nat :: LastGiven(pairs, j, f) ==>
          Lookup(data', FieldKey(prefix, f)) == Some(Item(pairs[2 * j + 1], TYPE_HASH, None)))
    && (forall f :: NotGiven(pairs, f) ==> Lookup(data', FieldKey(prefix, f)) == Lookup(data, FieldKey(prefix, f)))
  }

  lemma WritesPairs(data: Data, data': Data, prefix: Bytes, fields: Fields, pairs: seq<Bytes>)
    requires FieldsStored(data, prefix, fields) && FieldsStored(data', prefix, SetPairs(fields, pairs, 0))
    ensures PairsWritten(data, data', prefix, pairs)
  {
    hide FieldKey, SetPairs;
    forall f ensures var after := SetPairs(fields, pairs, 0);
      && (forall j: nat :: LastGiven(pairs, j, f) ==> f in after && after[f] == pairs[2 * j + 1])
      && (NotGiven(pairs, f) ==> FieldAt(after, f) == FieldAt(fields, f))
    {
      SetPairsExact(fields, pairs, 0, f);
    }
  }

  lemma MapSize<K, V>(m: map<K, V>, k: K, v: V)
    ensures |m[k := v]| == |m| + (if k in m then 0 else 1)
    ensures |m - {k}| == |m| - (if k in m then 1 else 0)
  {
    assert m[k := v].Keys == m.Keys + {k} && (m - {k}).Keys == m.Keys - {k};
    assert |m[k := v]| == |m[k := v].Keys| && |m - {k}| == |(m - {k}).Keys| && |m| == |m.Keys|;
  }

  // ---- Commands ----------------------------------------------------------

  /** What a command finds before it writes. */
  lemma Resolved(data: Data, public: Bytes, spare: ElementPrefix, prefix: ElementPrefix, held: Held)
    requires Ready(data, public, spare, prefix, held)
    ensures WritePrefix(Lookup(data, public), public, spare) == Ok(prefix)
    ensures CountOrZero(Lookup(data, public)) ==
      match held case HashOf(fields) => Ok(|fields|) case Other(_, _) => Err(WrongType)
    ensures match held case HashOf(fields) => FieldsStored(data, prefix.bytes, fields) case Other(_, _) => true
    ensures public in data ==> PrefixOf(data[public], LegacyPrefix(public)) == Ok(prefix)
  {
    match held
    case HashOf(fields) => CountRead(data, public, prefix, fields);
    case Other(_, _) =>
  }

  /** What a command finds at the entry of a field. */
  lemma EntryOf(data: Data, public: Bytes, prefix: ElementPrefix, held: Held, f: Bytes)
    requires HeldAt(data, public, prefix, held)
    ensures var item := Lookup(data, FieldKey(prefix.bytes, f));
      ValueAt(held, f) == if item.Some? then Some(item.value.value) else None
  {
  }

  /** Only the public entry of a value, which keeps its expiry, and entries where fields lie differ. */
  ghost predicate OnlyFields(data: Data, data': Data, public: Bytes, prefix: Bytes) {
    && (public in data' ==> data'[public].expiry == ExpiryOf(data, public))
    && forall e :: e != public && !(prefix + [0] <= e) ==> Lookup(data', e) == Lookup(data, e)
  }

  lemma FieldSetElsewhere(data: Data, before: Data, public: Bytes, prefix: Bytes, f: Bytes, item: Item)
    requires OnlyFields(data, before, public, prefix) && Lookup(before, public) == Lookup(data, public)
      && !(prefix <= public)
    ensures var after := before[FieldKey(prefix, f) := item];
      OnlyFields(data, after, public, prefix) && Lookup(after, public) == Lookup(data, public)
    ensures var after := before - {FieldKey(prefix, f)};
      OnlyFields(data, after, public, prefix) && Lookup(after, public) == Lookup(data, public)
  {
    FieldKeyInjective(prefix, f, f);
  }

  /** Writes the sentinel with the number of fields. */
  method WriteCount(tx: Tx, public: Bytes, count: nat, prefix: ElementPrefix, ghost fields: Fields)
    returns (r: Result<(), DbError>)
    requires Placed(public, prefix) && FieldsStored(tx.data, prefix.bytes, fields) && fields != map[]
      && count == |fields| && count < Pow256(4)
    requires public in tx.data ==> PrefixOf(tx.data[public], LegacyPrefix(public)) == Ok(prefix)
    modifies tx
    ensures r.Ok? && Stored(tx.data, public, prefix, fields)
      && ExpiryOf(tx.data, public) == ExpiryOf(old(tx.data), public)
      && forall e :: e != public ==> Lookup(tx.data, e) == Lookup(old(tx.data), e)
  {
    hide Stored, FieldsStored;
    CountWritten(tx.data, public, prefix, fields);
    r := WriteSentinel(tx, public, BigEndian(count, 4), TYPE_HASH, prefix);
  }

  /** HSET: the number of new fields; a value of another type is refused. */
  method HSet(tx: Tx, public: Bytes, spare: ElementPrefix, pairs: seq<Bytes>, ghost prefix: ElementPrefix,
              ghost held: Held)
    returns (r: Result<nat, DbError>)
    requires Ready(tx.data, public, spare, prefix, held) && |pairs| >= 2 && Size(held) + |pairs| < Pow256(4)
    modifies tx
    ensures match held
      case HashOf(fields) =>
        var fields' := SetPairs(fields, pairs, 0);
        r.Ok? && |fields'| == |fields| + r.value && fields' != map[] && Stored(tx.data, public, prefix, fields')
      case Other(_, _) => r == Err(WrongType) && tx.data == old(tx.data)
    ensures held.HashOf? ==> PairsWritten(old(tx.data), tx.data, prefix.bytes, pairs)
    ensures OnlyFields(old(tx.data), tx.data, public, prefix.bytes)
  {
    hide HeldAt, Stored, FieldsStored, WritePrefix, CountOrZero, FieldKey, PrefixOf, PairsWritten;
    ghost var data := tx.data;
    Resolved(tx.data, public, spare, prefix, held);
    match WritePrefix(tx.Get(public), public, spare)
    case Err(e) => return Err(e);
    case Ok(p) =>
      match CountOrZero(tx.Get(public))
      case Err(e) => return Err(e);
      case Ok(n) =>
        ghost var fields := held.fields;
        SetPairsSize(fields, pairs, 0);
        var added := SetLoop(tx, public, p, pairs, fields);
        var w := WriteCount(tx, public, n + added, p, SetPairs(fields, pairs, 0));
        CountRead(tx.data, public, p, SetPairs(fields, pairs, 0));
        WritesPairs(data, tx.data, p.bytes, fields, pairs);
        r := if w.Ok? then Ok(added) else Err(Corrupt);
  }

  method SetLoop(tx: Tx, ghost public: Bytes, prefix: ElementPrefix, pairs: seq<Bytes>, ghost fields: Fields)
    returns (added: nat)
    requires FieldsStored(tx.data, prefix.bytes, fields) && !(prefix.bytes <= public)
    modifies tx
    ensures FieldsStored(tx.data, prefix.bytes, SetPairs(fields, pairs, 0))
      && added == |SetPairs(fields, pairs, 0)| - |fields|
    ensures OnlyFields(old(tx.data), tx.data, public, prefix.bytes)
      && Lookup(tx.data, public) == Lookup(old(tx.data), public)
  {
    ghost var data, now := tx.data, fields;
    added := 0;
    var i := 0;
    while i + 1 < |pairs|
      invariant FieldsStored(tx.data, prefix.bytes, now) && SetPairs(now, pairs, i) == SetPairs(fields, pairs, 0)
        && added == |now| - |fields|
      invariant OnlyFields(data, tx.data, public, prefix.bytes) && Lookup(tx.data, public) == Lookup(data, public)
    {
      var fk := FieldKey(prefix.bytes, pairs[i]);
      assert Lookup(tx.data, fk) == FieldAt(now, pairs[i]);
      hide FieldsStored, OnlyFields, FieldKey;
      if tx.Get(fk).None? {
        added := added + 1;
      }
      SetField(tx.data, prefix.bytes, now, pairs[i], pairs[i + 1]);
      FieldSetElsewhere(data, tx.data, public, prefix.bytes, pairs[i], Item(pairs[i + 1], TYPE_HASH, None));
      MapSize(now, pairs[i], pairs[i + 1]);
      tx.Set(fk, Item(pairs[i + 1], TYPE_HASH, None));
      now := now[pairs[i] := pairs[i + 1]];
      i := i + 2;
    }
  }

  /** The entry of one field is written, and no other field's. */
  ghost predicate FieldWritten(data: Data, data': Data, prefix: Bytes, f: Bytes, v: Bytes) {
    && Lookup(data', FieldKey(prefix, f)) == Some(Item(v, TYPE_HASH, None))
    && forall g :: g != f ==> Lookup(data', FieldKey(prefix, g)) == Lookup(data, FieldKey(prefix, g))
  }

  lemma PutWritten(data: Data, data': Data, public: Bytes, prefix: ElementPrefix, held: Held, f: Bytes, v: Bytes)
    requires HeldAt(data, public, prefix, held) && HeldAt(data', public, prefix, Put(held, f, v))
    ensures FieldWritten(data, data', prefix.bytes, f, v)
  {
    hide FieldKey;
  }

  /**
    A field that was missing is added and counted; on a value of another type it is
    written before the command fails.
   */
  method AddField(tx: Tx, public: Bytes, prefix: ElementPrefix, f: Bytes, v: Bytes, ghost held: Held)
    returns (r: Result<(), DbError>)
    requires Placed(public, prefix) && HeldAt(tx.data, public, prefix, held) && ValueAt(held, f).None?
      && Size(held) + 1 < Pow256(4)
    modifies tx
    ensures (if held.HashOf? then r.Ok? else r == Err(WrongType)) && HeldAt(tx.data, public, prefix, Put(held, f, v))
    ensures OnlyFields(old(tx.data), tx.data, public, prefix.bytes)
  {
    hide HeldAt, Stored, OtherStored, FieldsStored, CountOrZero, FieldKey, PrefixOf;
    ghost var data := tx.data;
    Resolved(tx.data, public, prefix, prefix, held);
    FieldSetElsewhere(data, tx.data, public, prefix.bytes, f, Item(v, TYPE_HASH, None));
    if held.HashOf? {
      SetField(tx.data, prefix.bytes, held.fields, f, v);
      MapSize(held.fields, f, v);
    } else {
      SetCell(tx.data, public, prefix, held, f, v);
    }
    tx.Set(FieldKey(prefix.bytes, f), Item(v, TYPE_HASH, None));
    match CountOrZero(tx.Get(public))
    case Err(e) => return Err(e);
    case Ok(n) =>
      assert f in held.fields[f := v];
      r := WriteCount(tx, public, n + 1, prefix, held.fields[f := v]);
      HashHeld(tx.data, public, prefix, held.fields[f := v]);
  }

  lemma HashHeld(data: Data, public: Bytes, prefix: ElementPrefix, fields: Fields)
    requires Stored(data, public, prefix, fields)
    ensures HeldAt(data, public, prefix, HashOf(fields))
  {
  }

  lemma SetCell(data: Data, public: Bytes, prefix: ElementPrefix, held: Held, f: Bytes, v: Bytes)
    requires Placed(public, prefix) && held.Other? && HeldAt(data, public, prefix, held)
    ensures HeldAt(data[FieldKey(prefix.bytes, f) := Item(v, TYPE_HASH, None)], public, prefix, Put(held, f, v))
  {
    hide FieldKey, PrefixOf;
    FieldKeyInjective(prefix.bytes, f, f);
    forall g ensures FieldKey(prefix.bytes, f) == FieldKey(prefix.bytes, g) ==> f == g {
      FieldKeyInjective(prefix.bytes, f, g);
    }
  }

  /**
    HSETNX: sets a field that does not exist. The type of the key is looked at only
    after the field has been written.
   */
  method HSetNx(tx: Tx, public: Bytes, spare: ElementPrefix, f: Bytes, v: Bytes, ghost prefix: ElementPrefix,
                ghost held: Held)
    returns (r: Result<nat, DbError>)
    requires Ready(tx.data, public, spare, prefix, held) && Size(held) + 1 < Pow256(4)
    modifies tx
    ensures if ValueAt(held, f).Some? then r == Ok(0) && tx.data == old(tx.data)
      else r == (if held.HashOf? then Ok(1) else Err(WrongType)) && HeldAt(tx.data, public, prefix, Put(held, f, v))
    ensures ValueAt(held, f).None? ==> FieldWritten(old(tx.data), tx.data, prefix.bytes, f, v)
    ensures OnlyFields(old(tx.data), tx.data, public, prefix.bytes)
  {
    hide HeldAt, FieldKey, WritePrefix, CountOrZero, FieldsStored, PrefixOf, FieldWritten;
    Resolved(tx.data, public, spare, prefix, held);
    match WritePrefix(tx.Get(public), public, spare)
    case Err(e) => return Err(e);
    case Ok(p) =>
      EntryOf(tx.data, public, p, held, f);
      if tx.Get(FieldKey(p.bytes, f)).Some? {
        return Ok(0);
      }
      ghost var data := tx.data;
      var w := AddField(tx, public, p, f, v, held);
      PutWritten(data, tx.data, public, p, held, f, v);
      match w
      case Err(e) => return Err(e);
      case Ok(_) => return Ok(1);
  }

  const HALF: nat := 0x8000_0000_0000_0000

  predicate Fits64(n: int) { 0 <= n + HALF < 2 * HALF }

  /** A sum of 64-bit numbers that is not checked wraps around. */
  function Wrapped(n: int): int { (n + HALF) % (2 * HALF) - HALF }

  lemma WrappedSum(n: int)
    ensures Fits64(Wrapped(n)) && (Wrapped(n) == n <==> Fits64(n)) && (Wrapped(n) - n) % (2 * HALF) == 0
  {
  }

  /** How integers are read and written, and whether sums are checked. */
  datatype Numbers = Numbers(parse: Bytes -> Option<int>, show: int -> Bytes, checked: bool)

  /** Whether a field holds something that is no number. */
  predicate NoNumber(held: Held, f: Bytes, nums: Numbers) {
    ValueAt(held, f).Some? && nums.parse(ValueAt(held, f).value).None?
  }

  /** What HINCRBY adds up; a missing field counts as 0. */
  function SumAt(held: Held, f: Bytes, amount: int, nums: Numbers): int
    requires !NoNumber(held, f, nums)
  {
    (match ValueAt(held, f) case Some(v) => nums.parse(v).value case None => 0) + amount
  }

  /** The number HINCRBY leaves at a field. */
  function Increased(held: Held, f: Bytes, amount: int, nums: Numbers): int
    requires !NoNumber(held, f, nums)
  {
    Wrapped(SumAt(held, f, amount, nums))
  }

  /** A checked sum that does not fit makes HINCRBY panic. */
  predicate Overflows(held: Held, f: Bytes, amount: int, nums: Numbers) {
    nums.checked && !NoNumber(held, f, nums) && !Fits64(SumAt(held, f, amount, nums))
  }

  /** HINCRBY leaves the sum of the number there, or of 0, and the amount. */
  lemma IncreasedExact(held: Held, f: Bytes, amount: int, nums: Numbers)
    ensures forall v, n :: ValueAt(held, f) == Some(v) && nums.parse(v) == Some(n) && Fits64(n + amount) ==>
      !NoNumber(held, f, nums) && Increased(held, f, amount, nums) == n + amount
    ensures ValueAt(held, f).None? && Fits64(amount) ==>
      !NoNumber(held, f, nums) && Increased(held, f, amount, nums) == amount
  {
  }

  /** The largest number, increased by 1 with checked sums. */
  lemma LargestOverflows(f: Bytes, v: Bytes, nums: Numbers)
    requires nums.checked && nums.parse(v) == Some(HALF - 1)
    ensures Overflows(HashOf(map[f := v]), f, 1, nums)
  {
  }

  /**
    HINCRBY: a value that is no integer is refused. A field that is there is
    replaced without a look at the type of the key; a missing one is written
    before that look.
   */
  method HIncrBy(tx: Tx, public: Bytes, spare: ElementPrefix, f: Bytes, amount: int, nums: Numbers,
                 ghost prefix: ElementPrefix, ghost held: Held)
    returns (r: Result<int, DbError>)
    requires Ready(tx.data, public, spare, prefix, held) && Size(held) + 1 < Pow256(4) && Fits64(amount)
    modifies tx
    ensures NoNumber(held, f, nums) ==> r.Err? && r != Err(Panic) && tx.data == old(tx.data)
    ensures r == Err(Panic) <==> Overflows(held, f, amount, nums)
    ensures r == Err(Panic) ==> tx.data == old(tx.data)
    ensures !NoNumber(held, f, nums) && r != Err(Panic) ==>
      var sum := Increased(held, f, amount, nums);
      && r == (if held.HashOf? || ValueAt(held, f).Some? then Ok(sum) else Err(WrongType))
      && HeldAt(tx.data, public, prefix, Put(held, f, nums.show(sum)))
      && FieldWritten(old(tx.data), tx.data, prefix.bytes, f, nums.show(sum))
    ensures OnlyFields(old(tx.data), tx.data, public, prefix.bytes)
  {
    hide HeldAt, FieldKey, WritePrefix, CountOrZero, FieldsStored, PrefixOf, Wrapped, Placed, OnlyFields, Put, Size;
    hide FieldWritten;
    ghost var data := tx.data;
    OnlyFieldsSame(tx.data, public, prefix.bytes);
    Resolved(tx.data, public, spare, prefix, held);
    match WritePrefix(tx.Get(public), public, spare)
    case Err(e) => return Err(e);
    case Ok(p) =>
      EntryOf(tx.data, public, p, held, f);
      var item := tx.Get(FieldKey(p.bytes, f));
      if item.None? {
        var w := AddField(tx, public, p, f, nums.show(Wrapped(0 + amount)), held);
        PutWritten(data, tx.data, public, p, held, f, nums.show(Wrapped(0 + amount)));
        match w {
          case Err(e) => return Err(e);
          case Ok(_) => return Ok(Wrapped(0 + amount));
        }
      }
      var current := nums.parse(item.value.value);
      if current.None? {
        return Err(Message("hash value is not an integer"));
      }
      if nums.checked && !Fits64(current.value + amount) {
        return Err(Panic);
      }
      var sum := Wrapped(current.value + amount);
      FieldReplaced(tx.data, public, p, held, f, nums.show(sum));
      tx.Set(FieldKey(p.bytes, f), Item(nums.show(sum), TYPE_HASH, None));
      PutWritten(data, tx.data, public, p, held, f, nums.show(sum));
      return Ok(sum);
  }

  lemma FieldReplaced(data: Data, public: Bytes, prefix: ElementPrefix, held: Held, f: Bytes, v: Bytes)
    requires Placed(public, prefix) && HeldAt(data, public, prefix, held) && ValueAt(held, f).Some?
    ensures var data' := data[FieldKey(prefix.bytes, f) := Item(v, TYPE_HASH, None)];
      HeldAt(data', public, prefix, Put(held, f, v)) && OnlyFields(data, data', public, prefix.bytes)
  {
    assert OnlyFields(data, data, public, prefix.bytes);
    hide FieldsStored, FieldKey, Payload, PrefixOf, BigEndian, OtherStored;
    FieldSetElsewhere(data, data, public, prefix.bytes, f, Item(v, TYPE_HASH, None));
    match held
    case HashOf(fields) =>
      SetField(data, prefix.bytes, fields, f, v);
      MapSize(fields, f, v);
      assert f in fields[f := v];
    case Other(_, _) => SetCell(data, public, prefix, held, f, v);
  }

  function Without(fields: Fields, names: seq<Bytes>): Fields { fields - (set f | f in names) }

  /** The entries of the named fields are gone, all others stay. */
  ghost predicate NamesDropped(data: Data, data': Data, prefix: Bytes, names: seq<Bytes>) {
    forall f :: Lookup(data', FieldKey(prefix, f)) == if f in names then None else Lookup(data, FieldKey(prefix, f))
  }

  lemma DropsNames(data: Data, data': Data, public: Bytes, prefix: ElementPrefix, fields: Fields, names: seq<Bytes>)
    requires Stored(data, public, prefix, fields) && Stored(data', public, prefix, Without(fields, names))
    ensures NamesDropped(data, data', prefix.bytes, names)
  {
    hide FieldKey;
  }

  /**
    HDEL: the number of fields removed; with the last one the sentinel goes too. A
    value of another type is refused.
   */
  method HDel(tx: Tx, public: Bytes, names: seq<Bytes>, ghost prefix: ElementPrefix, ghost held: Held)
    returns (r: Result<nat, DbError>)
    requires Placed(public, prefix) && HeldAt(tx.data, public, prefix, held)
    modifies tx
    ensures match held
      case HashOf(fields) =>
        r.Ok? && |fields| == |Without(fields, names)| + r.value
          && Stored(tx.data, public, prefix, Without(fields, names))
      case Other(_, _) => r == Err(WrongType) && tx.data == old(tx.data)
    ensures held.HashOf? ==> NamesDropped(old(tx.data), tx.data, prefix.bytes, names)
    ensures OnlyFields(old(tx.data), tx.data, public, prefix.bytes)
  {
    hide FieldsStored, FieldKey, PrefixOf, Payload, NamesDropped;
    ghost var data := tx.data;
    if held.HashOf? {
      CountRead(tx.data, public, prefix, held.fields);
    }
    hide ReadCount;
    match ReadPrefix(tx.Get(public), public)
    case Err(e) => return Err(e);
    case Ok(p) =>
      match ReadCount(tx.Get(public))
      case Err(e) =>
        if held.HashOf? {
          assert Without(held.fields, names) == held.fields;
          DropsNames(data, data, public, prefix, held.fields, names);
        }
        return if e == KeyNotFound then Ok(0) else Err(e);
      case Ok(n) =>
        var removed := DropLoop(tx, public, p, names, held.fields);
        ghost var left := Without(held.fields, names);
        if n == removed {
          assert left == map[];
          DroppedHash(tx.data, public, p);
          tx.Delete(public);
        } else {
          hide Stored;
          var w := WriteCount(tx, public, n - removed, p, left);
        }
        DropsNames(data, tx.data, public, p, held.fields, names);
        r := Ok(removed);
  }

  lemma DroppedHash(data: Data, public: Bytes, prefix: ElementPrefix)
    requires Placed(public, prefix) && FieldsStored(data, prefix.bytes, map[])
    ensures Stored(data - {public}, public, prefix, map[])
  {
    hide FieldKey;
    forall f ensures FieldKey(prefix.bytes, f) != public { FieldKeyInjective(prefix.bytes, f, f); }
  }

  /** Deletes one field, telling whether it was there. */
  method DropOne(tx: Tx, ghost public: Bytes, prefix: ElementPrefix, f: Bytes, ghost data: Data, ghost now: Fields)
    returns (found: bool)
    requires FieldsStored(tx.data, prefix.bytes, now) && !(prefix.bytes <= public)
    requires OnlyFields(data, tx.data, public, prefix.bytes) && Lookup(tx.data, public) == Lookup(data, public)
    modifies tx
    ensures FieldsStored(tx.data, prefix.bytes, now - {f}) && |now - {f}| == |now| - (if found then 1 else 0)
    ensures OnlyFields(data, tx.data, public, prefix.bytes) && Lookup(tx.data, public) == Lookup(data, public)
  {
    var fk := FieldKey(prefix.bytes, f);
    assert Lookup(tx.data, fk) == FieldAt(now, f);
    hide FieldsStored, OnlyFields, FieldKey;
    MapSize(now, f, []);
    found := tx.Get(fk).Some?;
    if found {
      DropField(tx.data, prefix.bytes, now, f);
      FieldSetElsewhere(data, tx.data, public, prefix.bytes, f, Item([], 0, None));
      tx.Delete(fk);
    } else {
      assert now - {f} == now;
    }
  }

  method DropLoop(tx: Tx, ghost public: Bytes, prefix: ElementPrefix, names: seq<Bytes>, ghost fields: Fields)
    returns (removed: nat)
    requires FieldsStored(tx.data, prefix.bytes, fields) && !(prefix.bytes <= public)
    modifies tx
    ensures FieldsStored(tx.data, prefix.bytes, Without(fields, names))
      && removed == |fields| - |Without(fields, names)|
    ensures OnlyFields(old(tx.data), tx.data, public, prefix.bytes)
      && Lookup(tx.data, public) == Lookup(old(tx.data), public)
  {
    hide Without, OnlyFields, FieldsStored, Lookup;
    ghost var data := tx.data;
    removed := 0;
    OnlyFieldsSame(data, public, prefix.bytes);
    WithoutNone(fields, names[..0]);
    for i := 0 to |names|
      invariant FieldsStored(tx.data, prefix.bytes, Without(fields, names[..i]))
        && removed == |fields| - |Without(fields, names[..i])|
      invariant OnlyFields(data, tx.data, public, prefix.bytes) && Lookup(tx.data, public) == Lookup(data, public)
    {
      WithoutNext(fields, names, i);
      var found := DropOne(tx, public, prefix, names[i], data, Without(fields, names[..i]));
      if found {
        removed := removed + 1;
      }
    }
    assert names[..|names|] == names;
  }

  lemma WithoutNone(fields: Fields, names: seq<Bytes>)
    requires names == []
    ensures Without(fields, names) == fields
  {
  }

  lemma WithoutNext(fields: Fields, names: seq<Bytes>, i: nat)
    requires i < |names|
    ensures Without(fields, names[..i + 1]) == Without(fields, names[..i]) - {names[i]}
  {
    assert names[..i + 1] == names[..i] + [names[i]];
  }

  /** HLEN: the number the sentinel holds; a value of another type is refused. */
  method HLen(tx: Tx, public: Bytes, ghost prefix: ElementPrefix, ghost held: Held) returns (r: Result<nat, DbError>)
    requires HeldAt(tx.data, public, prefix, held)
    ensures r == match held case HashOf(fields) => Ok(|fields|) case Other(_, _) => Err(WrongType)
  {
    if held.HashOf? {
      CountRead(tx.data, public, prefix, held.fields);
    }
    r := CountOrZero(tx.Get(public));
  }

  // ---- Runs --------------------------------------------------------------

  datatype Op =
    | Set(pairs: seq<Bytes>)
    | SetNx(field: Bytes, value: Bytes)
    | IncrBy(field: Bytes, amount: int)
    | Del(names: seq<Bytes>)
    | Len

  /** A command with the namespace it would use for a new hash. */
  datatype Step = Step(op: Op, spare: ElementPrefix)

  /** One command on a plain map of fields, or on a value of another type. */
  function After(held: Held, op: Op, nums: Numbers): Held {
    match op
    case Set(pairs) => if held.HashOf? then HashOf(SetPairs(held.fields, pairs, 0)) else held
    case SetNx(f, v) => if ValueAt(held, f).Some? then held else Put(held, f, v)
    case IncrBy(f, amount) =>
      if NoNumber(held, f, nums) || Overflows(held, f, amount, nums) then held
      else Put(held, f, nums.show(Increased(held, f, amount, nums)))
    case Del(names) => if held.HashOf? then HashOf(Without(held.fields, names)) else held
    case Len => held
  }

  /** Its reply: how many fields were added or removed, the new number, how many there are, or nothing for an error. */
  function ReplyTo(held: Held, op: Op, nums: Numbers): Option<int> {
    match op
    case Set(pairs) => if held.HashOf? then Some(|SetPairs(held.fields, pairs, 0)| - |held.fields|) else None
    case SetNx(f, v) => if ValueAt(held, f).Some? then Some(0) else if held.HashOf? then Some(1) else None
    case IncrBy(f, amount) =>
      if NoNumber(held, f, nums) || Overflows(held, f, amount, nums)
        || (held.Other? && ValueAt(held, f).None?) then None
      else Some(Increased(held, f, amount, nums))
    case Del(names) => if held.HashOf? then Some(|held.fields| - |Without(held.fields, names)|) else None
    case Len => if held.HashOf? then Some(|held.fields|) else None
  }

  /** Outside EXEC a failed command leaves no trace, inside EXEC what it did stays. */
  function Perform(held: Held, op: Op, batch: bool, nums: Numbers): Held {
    if ReplyTo(held, op, nums).None? && !batch then held else After(held, op, nums)
  }

  /** HSETNX or HINCRBY of a field that a value of another type does not have. */
  predicate Strays(held: Held, op: Op) { held.Other? && (op.SetNx? || op.IncrBy?) && ValueAt(held, op.field).None? }

  /** Such a command fails, and it is the only kind of failed command that does something. */
  lemma StraysFail(held: Held, op: Op, nums: Numbers)
    requires Callable(op)
    ensures Strays(held, op) <==> ReplyTo(held, op, nums).None? && After(held, op, nums) != held
  {
    if Strays(held, op) {
      assert forall v ::
        Put(held, op.field, v).cells != held.cells by { assert forall v :: op.field in Put(held, op.field, v).cells; }
    }
  }

  function PerformAll(held: Held, steps: seq<Step>, batch: bool, nums: Numbers): Held
    decreases |steps|
  {
    if steps == [] then held else PerformAll(Perform(held, steps[0].op, batch, nums), steps[1..], batch, nums)
  }

  function Replies(held: Held, steps: seq<Step>, batch: bool, nums: Numbers): seq<Option<int>>
    decreases |steps|
  {
    if steps == [] then []
    else [ReplyTo(held, steps[0].op, nums)] + Replies(Perform(held, steps[0].op, batch, nums), steps[1..], batch, nums)
  }

  /** How many fields a command may add. */
  function Growth(op: Op): nat {
    match op case Set(pairs) => |pairs| case SetNx(_, _) => 1 case IncrBy(_, _) => 1 case _ => 0
  }

  lemma PutSize(held: Held, f: Bytes, v: Bytes)
    ensures Size(Put(held, f, v)) <= Size(held) + 1
  {
    match held
    case HashOf(fields) => MapSize(fields, f, v);
    case Other(_, _) =>
  }

  lemma PerformSize(held: Held, op: Op, batch: bool, nums: Numbers)
    ensures Size(Perform(held, op, batch, nums)) <= Size(held) + Growth(op)
  {
    match op
    case Set(pairs) => if held.HashOf? { SetPairsSize(held.fields, pairs, 0); }
    case SetNx(f, v) => PutSize(held, f, v);
    case IncrBy(f, amount) =>
      if !NoNumber(held, f, nums) {
        PutSize(held, f, nums.show(Increased(held, f, amount, nums)));
      }
    case Del(names) => if held.HashOf? { WithoutSize(held.fields, names); }
    case Len =>
  }

  lemma WithoutSize(fields: Fields, names: seq<Bytes>)
    ensures |Without(fields, names)| <= |fields|
  {
    var left := Without(fields, names);
    assert left.Keys <= fields.Keys && |left| == |left.Keys| && |fields| == |fields.Keys|;
    SubsetSize(left.Keys, fields.Keys);
  }

  lemma SubsetSize<T>(a: set<T>, b: set<T>)
    requires a <= b
    ensures |a| <= |b|
  {
    assert b == a + (b - a);
  }

  predicate Callable(op: Op) { (op.Set? ==> |op.pairs| >= 2) && (op.IncrBy? ==> Fits64(op.amount)) }

  /**
    What one command did: the reply and the value are the plain ones, and a failure
    that does nothing changes no entry.
   */
  ghost predicate Did(before: Data, data: Data, public: Bytes, prefix: ElementPrefix, held: Held, op: Op, nums: Numbers,
                      reply: Option<int>) {
    && reply == ReplyTo(held, op, nums) && HeldAt(data, public, prefix, After(held, op, nums))
    && OnlyFields(before, data, public, prefix.bytes) && (reply.None? && !Strays(held, op) ==> data == before)
  }

  function ReplyOf(r: Result<int, DbError>): Option<int> { match r case Ok(n) => Some(n) case Err(_) => None }

  /** One command as it runs, before a failure is undone. */
  method Attempt(tx: Tx, public: Bytes, s: Step, nums: Numbers, ghost prefix: ElementPrefix, ghost held: Held)
    returns (reply: Option<int>)
    requires Ready(tx.data, public, s.spare, prefix, held) && Callable(s.op) && Size(held) + Growth(s.op) < Pow256(4)
    modifies tx
    ensures Did(old(tx.data), tx.data, public, prefix, held, s.op, nums, reply)
  {
    hide Stored, OtherStored, SetPairs, Without, OnlyFields, Placed, FieldsStored, Increased, NoNumber, SumAt;
    assert OnlyFields(tx.data, tx.data, public, prefix.bytes) by { OnlyFieldsSame(tx.data, public, prefix.bytes); }
    match s.op
    case Set(pairs) =>
      var r := HSet(tx, public, s.spare, pairs, prefix, held);
      reply := if r.Ok? then Some(r.value) else None;
    case SetNx(f, v) =>
      var r := HSetNx(tx, public, s.spare, f, v, prefix, held);
      reply := if r.Ok? then Some(r.value) else None;
    case IncrBy(f, amount) =>
      var r := HIncrBy(tx, public, s.spare, f, amount, nums, prefix, held);
      reply := ReplyOf(r);
    case Del(names) =>
      var r := HDel(tx, public, names, prefix, held);
      reply := if r.Ok? then Some(r.value) else None;
    case Len =>
      var r := HLen(tx, public, prefix, held);
      reply := if r.Ok? then Some(r.value) else None;
  }

  lemma OnlyFieldsSame(data: Data, public: Bytes, prefix: Bytes)
    ensures OnlyFields(data, data, public, prefix)
  {
  }

  /** Two states of the store that hold different values under one prefix differ. */
  lemma HeldDiffer(data: Data, data': Data, public: Bytes, prefix: ElementPrefix, held: Held, f: Bytes, v: Bytes)
    requires HeldAt(data, public, prefix, held) && HeldAt(data', public, prefix, Put(held, f, v))
      && ValueAt(held, f).None?
    ensures data != data'
  {
    EntryOf(data, public, prefix, held, f);
    EntryOf(data', public, prefix, Put(held, f, v), f);
  }

  /** One command. A failed one leaves the store unchanged exactly when it runs outside EXEC or did not stray. */
  method Execute(tx: Tx, public: Bytes, s: Step, batch: bool, nums: Numbers, ghost prefix: ElementPrefix,
                 ghost held: Held)
    returns (reply: Option<int>)
    requires Ready(tx.data, public, s.spare, prefix, held) && Callable(s.op) && Size(held) + Growth(s.op) < Pow256(4)
    modifies tx
    ensures reply == ReplyTo(held, s.op, nums) && HeldAt(tx.data, public, prefix, Perform(held, s.op, batch, nums))
    ensures OnlyFields(old(tx.data), tx.data, public, prefix.bytes)
    ensures reply.None? ==> (tx.data == old(tx.data) <==> !batch || !Strays(held, s.op))
  {
    hide HeldAt, OnlyFields, Placed, Put, ValueAt, NoNumber, Increased;
    var saved := tx.data;
    reply := Attempt(tx, public, s, nums, prefix, held);
    if reply.None? && !batch {
      tx.data := saved;
      OnlyFieldsSame(tx.data, public, prefix.bytes);
    } else if Strays(held, s.op) {
      StrayEffect(saved, tx.data, public, prefix, held, s.op, nums);
    }
  }

  lemma StrayEffect(data: Data, data': Data, public: Bytes, prefix: ElementPrefix, held: Held, op: Op, nums: Numbers)
    requires HeldAt(data, public, prefix, held) && Strays(held, op) && Callable(op)
      && HeldAt(data', public, prefix, After(held, op, nums))
    ensures data' != data
  {
    hide HeldAt;
    var v := match op
      case SetNx(_, v) => v
      case IncrBy(f, amount) => nums.show(Increased(held, f, amount, nums))
      case _ => [];
    HeldDiffer(data, data', public, prefix, held, op.field, v);
  }

  const STRAY_KEY: Bytes := [ZERO, COLON, 115]
  const STRAY_SET: Item := Item([0, 0, 0, 0], TYPE_SET, None)

  /** HSETNX of a field of a set: it fails, and inside EXEC an entry stays behind where the set keeps its members. */
  lemma StrayField(nums: Numbers)
    ensures HeldAt(map[STRAY_KEY := STRAY_SET], STRAY_KEY, Legacy(LegacyPrefix(STRAY_KEY)), Other(STRAY_SET, map[]))
    ensures var before, op := Other(STRAY_SET, map[]), SetNx([102], [118]);
      && ReplyTo(before, op, nums) == None && Perform(before, op, false, nums) == before
      && Perform(before, op, true, nums) == Other(STRAY_SET, map[[102] := Item([118], TYPE_HASH, None)])
  {
    var data, none: Data := map[STRAY_KEY := STRAY_SET], map[];
    forall f ensures Lookup(data, FieldKey(LegacyPrefix(STRAY_KEY), f)) == Lookup(none, f) {
      assert |FieldKey(LegacyPrefix(STRAY_KEY), f)| > |STRAY_KEY|;
    }
  }

  ghost predicate NothingUnder(data: Data, p: Bytes) { forall e :: e in data ==> !(p <= e) }

  /** The spare namespaces are unused, and apart from each other and from the one in use. */
  ghost predicate Spares(data: Data, public: Bytes, used: Bytes, steps: seq<Step>) {
    && (forall i :: 0 <= i < |steps| ==>
          && Placed(public, steps[i].spare) && NothingUnder(data, steps[i].spare.bytes)
          && Apart(used, steps[i].spare.bytes))
    && (forall i, j :: 0 <= i < j < |steps| ==> Apart(steps[i].spare.bytes, steps[j].spare.bytes))
  }

  function TotalGrowth(steps: seq<Step>): nat
    decreases |steps|
  {
    if steps == [] then 0 else Growth(steps[0].op) + TotalGrowth(steps[1..])
  }

  lemma SpareReady(data: Data, public: Bytes, prefix: ElementPrefix, held: Held, steps: seq<Step>)
    returns (own: ElementPrefix)
    requires Placed(public, prefix) && HeldAt(data, public, prefix, held) && Spares(data, public, prefix.bytes, steps)
      && steps != []
    ensures own == if held == HashOf(map[]) then steps[0].spare else prefix
    ensures Ready(data, public, steps[0].spare, own, held)
    ensures forall i :: 1 <= i < |steps| ==> Apart(own.bytes, steps[i].spare.bytes)
  {
    own := if held == HashOf(map[]) then steps[0].spare else prefix;
    if held == HashOf(map[]) {
      forall f ensures FieldKey(own.bytes, f) !in data { FieldKeyInjective(own.bytes, f, f); }
      assert FieldsStored(data, own.bytes, map[]);
    }
  }

  lemma SparesLeft(data: Data, data': Data, public: Bytes, used: Bytes, own: Bytes, steps: seq<Step>)
    requires Spares(data, public, used, steps) && steps != [] && OnlyFields(data, data', public, own)
    requires forall i :: 1 <= i < |steps| ==> Apart(own, steps[i].spare.bytes)
    ensures Spares(data', public, own, steps[1..])
  {
    var rest := steps[1..];
    forall i | 0 <= i < |rest|
      ensures Placed(public, rest[i].spare) && NothingUnder(data', rest[i].spare.bytes)
        && Apart(own, rest[i].spare.bytes)
    {
      var p := rest[i].spare.bytes;
      assert rest[i] == steps[i + 1];
      forall e | e in data' ensures !(p <= e) {
        Comparable(own, p, e);
        assert e != public && !(own <= e) ==> Lookup(data', e) == Lookup(data, e);
      }
    }
  }

  /**
    Any run of commands on one key, inside EXEC or not, whatever the key holds:
    the replies and the fields are those of a plain map, and the sentinel counts
    them; on a value of another type they are those of the plain rules for it.
   */
  method Run(tx: Tx, public: Bytes, steps: seq<Step>, batch: bool, nums: Numbers, ghost prefix: ElementPrefix,
             ghost held: Held)
    returns (replies: seq<Option<int>>, ghost own: ElementPrefix)
    requires Placed(public, prefix) && HeldAt(tx.data, public, prefix, held)
      && Spares(tx.data, public, prefix.bytes, steps)
    requires Size(held) + TotalGrowth(steps) < Pow256(4) && forall i :: 0 <= i < |steps| ==> Callable(steps[i].op)
    modifies tx
    ensures replies == Replies(held, steps, batch, nums)
      && HeldAt(tx.data, public, own, PerformAll(held, steps, batch, nums))
    decreases |steps|
  {
    hide HeldAt, Spares, Placed, OnlyFields, Perform, ReplyTo, Growth, Callable;
    if steps == [] {
      return [], prefix;
    }
    ghost var data := tx.data;
    own := SpareReady(data, public, prefix, held, steps);
    var reply := Execute(tx, public, steps[0], batch, nums, own, held);
    SparesLeft(data, tx.data, public, prefix.bytes, own.bytes, steps);
    PerformSize(held, steps[0].op, batch, nums);
    replies, own := Run(tx, public, steps[1..], batch, nums, own, Perform(held, steps[0].op, batch, nums));
    replies := [reply] + replies;
  }

  // ---- HSCAN -------------------------------------------------------------

  datatype Pair = Pair(field: Bytes, value: Bytes)

  /** What follows the last zero byte of an entry's key. */
  function FieldOf(key: Bytes): Bytes {
    if key == [] then [] else if key[|key| - 1] == 0 then [] else FieldOf(key[..|key| - 1]) + [key[|key| - 1]]
  }

  lemma {:induction false} FieldOfKey(prefix: Bytes, f: Bytes)
    requires 0 !in f
    ensures FieldOf(FieldKey(prefix, f)) == f
    decreases |f|
  {
    var key := FieldKey(prefix, f);
    if f != [] {
      var init := f[..|f| - 1];
      assert key[..|key| - 1] == FieldKey(prefix, init) && key[|key| - 1] == f[|f| - 1];
      assert f[|f| - 1] in f;
      FieldOfKey(prefix, init);
    }
  }

  ghost predicate FieldWanted(pattern: Bytes, f: Bytes) { pattern == [] || Selects(Keyspace(pattern), f) }

  /** The matching fields and values in key order, from row `i` on. */
  ghost function Listed(rows: seq<Scan.Row>, prefix: Bytes, pattern: Bytes, i: nat): seq<Pair>
    decreases |rows| - i
  {
    if i >= |rows| then []
    else
      var rest, key := Listed(rows, prefix, pattern, i + 1), rows[i].key;
      if prefix + [0] <= key && FieldWanted(pattern, FieldOf(key)) then [Pair(FieldOf(key), rows[i].item.value)] + rest
        else rest
  }

  method ListFields(rows: seq<Scan.Row>, prefix: Bytes, pattern: Bytes) returns (pairs: seq<Pair>)
    ensures pairs == Listed(rows, prefix, pattern, 0)
  {
    hide FieldOf, Selects;
    pairs := [];
    for i := 0 to |rows|
      invariant pairs + Listed(rows, prefix, pattern, i) == Listed(rows, prefix, pattern, 0)
    {
      var key := rows[i].key;
      if prefix + [0] <= key {
        var field := FieldOf(key);
        var wanted := true;
        if pattern != [] {
          wanted := IsMatch(Keyspace(pattern), field);
        }
        if wanted {
          pairs := pairs + [Pair(field, rows[i].item.value)];
        }
      }
    }
  }

  const WORD: nat := 0x1_0000_0000_0000_0000

  /** The number a text stands for: digits behind an optional plus sign, if it fits a machine word. */
  function ParseIndex(text: Bytes): Option<nat> {
    var digits := if text != [] && text[0] == PLUS then text[1..] else text;
    if digits != [] && AllDigits(digits) && FromDecimal(digits) < WORD then Some(FromDecimal(digits)) else None
  }

  /** The index a cursor names: its number, or 0 for anything else. */
  function CursorIndex(cursor: Bytes): (i: nat)
    ensures i < WORD
  {
    match ParseIndex(cursor) case Some(n) => n case None => 0
  }

  /**
    The outcome of HSCAN: the next cursor, empty at the end, with the pairs; a slice
    out of range; or an unreadable sentinel.
   */
  datatype Outcome = Page(cursor: Bytes, pairs: seq<Pair>) | OutOfRange | Fails(error: DbError)

  /**
    The slice of the pairs from a cursor index on. The sum with the count and
    twice the index are computed in a machine word: what does not fit is
    refused or, unchecked, loses its highest bit.
   */
  function PageOf(pairs: seq<Pair>, offset: nat, count: nat, checked: bool): Outcome
    requires offset < WORD && count < HALF && 2 * |pairs| < HALF
  {
    var n, sum := |pairs|, offset + count;
    if checked && (sum >= WORD || offset >= HALF) then OutOfRange
    else
      var wrapped := if sum >= WORD then sum - WORD else sum;
      var end := if count > 0 && wrapped < n then wrapped else n;
      var from := if offset >= HALF then offset - HALF else offset;
      if from > end then OutOfRange else Page(if end < n then Decimal(end) else [], pairs[from..end])
  }

  /**
    There is a page exactly for an index up to the number of pairs; unchecked, the
    highest bit of the index is lost.
   */
  lemma PageExists(pairs: seq<Pair>, offset: nat, count: nat, checked: bool)
    requires offset < WORD && count < HALF && 2 * |pairs| < HALF
    ensures PageOf(pairs, offset, count, checked).Page? <==>
      offset <= |pairs| || (!checked && offset >= HALF && offset - HALF <= |pairs| && offset + count < WORD)
    ensures offset <= |pairs| ==>
      var end := if count > 0 && offset + count < |pairs| then offset + count else |pairs|;
      PageOf(pairs, offset, count, checked) == Page(if end < |pairs| then Decimal(end) else [], pairs[offset..end])
  {
    hide Decimal;
  }

  lemma {:induction false} ListedSize(rows: seq<Scan.Row>, prefix: Bytes, pattern: Bytes, i: nat)
    requires i <= |rows|
    ensures |Listed(rows, prefix, pattern, i)| <= |rows| - i
    decreases |rows| - i
  {
    hide FieldOf, FieldWanted;
    if i < |rows| {
      ListedSize(rows, prefix, pattern, i + 1);
    }
  }

  /** COUNT, where anything up to 0 asks for everything. */
  function Limit(count: int): nat { if count > 0 then count else 0 }

  /** The matching fields of the value at a key, with the prefix its sentinel names. */
  ghost function FieldsAt(item: Item, rows: seq<Scan.Row>, public: Bytes, pattern: Bytes): seq<Pair>
    requires PrefixOf(item, LegacyPrefix(public)).Ok?
  {
    Listed(rows, PrefixOf(item, LegacyPrefix(public)).value.bytes, pattern, 0)
  }

  /**
    A missing key has a page for every cursor; any other key has one when the
    cursor's index is at most the number of matching fields, whatever its type.
    Unchecked, the highest bit of the index is lost.
   */
  ghost predicate HasPage(data: Data, rows: seq<Scan.Row>, public: Bytes, cursor: Bytes, pattern: Bytes, n: nat,
                          checked: bool) {
    public in data ==>
      && PrefixOf(data[public], LegacyPrefix(public)).Ok?
      && var most, at := |FieldsAt(data[public], rows, public, pattern)|, CursorIndex(cursor);
         at <= most || (!checked && at >= HALF && at - HALF <= most && at + n < WORD)
  }

  /** HSCAN over the entries of the store. */
  method HScan(tx: Tx, rows: seq<Scan.Row>, public: Bytes, cursor: Bytes, pattern: Bytes, count: int, checked: bool)
    returns (page: Outcome)
    requires 2 * |rows| < HALF && count < HALF
    ensures page.Page? <==> HasPage(tx.data, rows, public, cursor, pattern, Limit(count), checked)
    ensures public !in tx.data ==> page == Page([], [])
    ensures public in tx.data && PrefixOf(tx.data[public], LegacyPrefix(public)).Ok? ==>
      var list := FieldsAt(tx.data[public], rows, public, pattern);
      2 * |list| < HALF && page == PageOf(list, CursorIndex(cursor), Limit(count), checked)
    ensures public in tx.data && PrefixOf(tx.data[public], LegacyPrefix(public)).Err? ==> page.Fails?
  {
    hide Listed, CursorIndex, PageOf, PrefixOf;
    match ReadPrefix(tx.Get(public), public)
    case Err(e) => return Fails(e);
    case Ok(prefix) =>
      if tx.Get(public).None? {
        return Page([], []);
      }
      var pairs := ListFields(rows, prefix.bytes, pattern);
      ListedSize(rows, prefix.bytes, pattern, 0);
      PageExists(pairs, CursorIndex(cursor), Limit(count), checked);
      page := PageOf(pairs, CursorIndex(cursor), Limit(count), checked);
  }

  /** A plus sign before the number of a cursor is accepted. */
  lemma PlusRead(n: nat)
    requires n < WORD
    ensures CursorIndex([PLUS] + Decimal(n)) == n
  {
    hide Decimal, FromDecimal;
    DecimalRoundTrip(n);
    assert ([PLUS] + Decimal(n))[1..] == Decimal(n);
  }

  /** A number that does not fit a machine word is read as 0. */
  lemma WideRead(n: nat)
    requires n >= WORD
    ensures CursorIndex(Decimal(n)) == 0
  {
    hide Decimal, FromDecimal;
    DecimalRoundTrip(n);
    assert Decimal(n)[0] != PLUS;
  }

  /** The cursor `+5` on a hash of three fields has no page. */
  lemma CursorPastTheEnd(pairs: seq<Pair>, count: nat, checked: bool)
    requires |pairs| == 3 && count < HALF
    ensures PageOf(pairs, CursorIndex([PLUS] + Decimal(5)), count, checked) == OutOfRange
  {
    PlusRead(5);
    PageExists(pairs, 5, count, checked);
  }

  lemma NextIndex(n: nat)
    requires n < WORD
    ensures Decimal(n) != [] && CursorIndex(Decimal(n)) == n
  {
    DecimalRoundTrip(n);
    assert Decimal(n)[0] != PLUS;
  }

  /**
    A client that calls HSCAN with each cursor it gets until that is 0: the pages make
    up the list from the first cursor on.
   */
  method HScanFrom(tx: Tx, rows: seq<Scan.Row>, public: Bytes, cursor: Bytes, pattern: Bytes, count: nat, checked: bool,
                   ghost prefix: ElementPrefix)
    returns (all: seq<Pair>, pages: nat)
    requires 2 * |rows| < HALF && 0 < count < HALF
    requires public in tx.data ==>
      PrefixOf(tx.data[public], LegacyPrefix(public)) == Ok(prefix)
      && CursorIndex(cursor) <= |Listed(rows, prefix.bytes, pattern, 0)|
    ensures public !in tx.data ==> all == [] && pages == 1
    ensures public in tx.data ==>
      all == Listed(rows, prefix.bytes, pattern, 0)[CursorIndex(cursor)..] && 1 <= pages && (pages - 1) * count <= |all|
    decreases |Listed(rows, prefix.bytes, pattern, 0)| - CursorIndex(cursor)
  {
    hide Listed, CursorIndex, Decimal, PageOf, PrefixOf;
    ghost var list, at := Listed(rows, prefix.bytes, pattern, 0), CursorIndex(cursor);
    if public in tx.data {
      ListedSize(rows, prefix.bytes, pattern, 0);
      PageExists(list, at, count, checked);
    }
    var page := HScan(tx, rows, public, cursor, pattern, count, checked);
    all, pages := page.pairs, 1;
    if page.cursor != [] {
      NextIndex(at + count);
      var more, n := HScanFrom(tx, rows, public, page.cursor, pattern, count, checked, prefix);
      Scan.OneMorePage(n, count);
      all, pages := all + more, n + 1;
      assert list[at..] == list[at..at + count] + list[at + count..];
    }
  }

  /** The rows are the entries of the store. */
  ghost predicate Snapshot(rows: seq<Scan.Row>, data: Data) {
    && (forall k :: 0 <= k < |rows| ==> Lookup(data, rows[k].key) == Some(rows[k].item))
    && (forall e :: e in data ==> exists k :: 0 <= k < |rows| && rows[k].key == e)
  }

  /**
    HSCAN lists exactly the hash's fields that the pattern selects, each with its
    value, if no name holds a zero byte.
   */
  lemma ListedIsHash(rows: seq<Scan.Row>, data: Data, public: Bytes, prefix: ElementPrefix, fields: Fields,
                     pattern: Bytes, f: Bytes, v: Bytes)
    requires Snapshot(rows, data) && Stored(data, public, prefix, fields) && forall g :: g in fields ==> 0 !in g
    ensures Pair(f, v) in Listed(rows, prefix.bytes, pattern, 0) <==>
      f in fields && fields[f] == v && FieldWanted(pattern, f)
  {
    hide Listed, FieldOf, FieldWanted, FieldKey, CountStored;
    var list, p := Listed(rows, prefix.bytes, pattern, 0), prefix.bytes;
    if Pair(f, v) in list {
      var n :| 0 <= n < |list| && list[n] == Pair(f, v);
      var k := RowOf(rows, p, pattern, 0, n);
      var g := RowField(data, p, fields, rows[k]);
      FieldOfKey(p, g);
    }
    if f in fields && fields[f] == v && FieldWanted(pattern, f) {
      assert Lookup(data, FieldKey(p, f)) == FieldAt(fields, f);
      var k :| 0 <= k < |rows| && rows[k].key == FieldKey(p, f);
      FieldOfKey(p, f);
      FieldKeyStarts(p, f);
      ListedRow(rows, p, pattern, 0, k);
    }
  }

  lemma FieldKeyStarts(prefix: Bytes, f: Bytes)
    ensures prefix + [0] <= FieldKey(prefix, f)
  {
  }

  lemma RowField(data: Data, prefix: Bytes, fields: Fields, row: Scan.Row) returns (g: Bytes)
    requires FieldsStored(data, prefix, fields) && Lookup(data, row.key) == Some(row.item) && prefix + [0] <= row.key
    ensures row.key == FieldKey(prefix, g) && g in fields && fields[g] == row.item.value
  {
    g := row.key[|prefix| + 1..];
    assert row.key == FieldKey(prefix, g);
    assert Lookup(data, FieldKey(prefix, g)) == FieldAt(fields, g);
  }

  lemma {:induction false} ListedRow(rows: seq<Scan.Row>, prefix: Bytes, pattern: Bytes, i: nat, k: nat)
    requires i <= k < |rows| && prefix + [0] <= rows[k].key && FieldWanted(pattern, FieldOf(rows[k].key))
    ensures Pair(FieldOf(rows[k].key), rows[k].item.value) in Listed(rows, prefix, pattern, i)
    decreases k - i
  {
    hide FieldOf, FieldWanted;
    if i < k {
      ListedRow(rows, prefix, pattern, i + 1, k);
    }
  }

  /** In a snapshot of the store every listed field is listed once, if no field name holds a zero byte. */
  lemma {:induction false} ListedOnce(rows: seq<Scan.Row>, prefix: Bytes, pattern: Bytes, i: nat, n: nat, m: nat)
    requires Scan.Ascending(rows) && n < m < |Listed(rows, prefix, pattern, i)|
    requires forall k :: 0 <= k < |rows| && prefix + [0] <= rows[k].key ==> 0 !in rows[k].key[|prefix| + 1..]
    ensures Listed(rows, prefix, pattern, i)[n].field != Listed(rows, prefix, pattern, i)[m].field
  {
    hide Listed, FieldOf, FieldKey;
    var p := RowOf(rows, prefix, pattern, i, n);
    var q := RowOf(rows, prefix, pattern, p + 1, m - n - 1);
    FieldOfRow(prefix, rows[p].key);
    FieldOfRow(prefix, rows[q].key);
    Scan.LessAsymmetric(rows[p].key, rows[q].key);
  }

  lemma FieldOfRow(prefix: Bytes, key: Bytes)
    requires prefix + [0] <= key && 0 !in key[|prefix| + 1..]
    ensures key == FieldKey(prefix, FieldOf(key))
  {
    var f := key[|prefix| + 1..];
    assert key == FieldKey(prefix, f);
    FieldOfKey(prefix, f);
  }

  lemma {:induction false} RowOf(rows: seq<Scan.Row>, prefix: Bytes, pattern: Bytes, i: nat, n: nat) returns (p: nat)
    requires n < |Listed(rows, prefix, pattern, i)|
    ensures i <= p < |rows| && prefix + [0] <= rows[p].key && FieldWanted(pattern, FieldOf(rows[p].key))
    ensures var list := Listed(rows, prefix, pattern, i);
      list[n] == Pair(FieldOf(rows[p].key), rows[p].item.value) && Listed(rows, prefix, pattern, p + 1) == list[n + 1..]
    decreases |rows| - i
  {
    var listed := prefix + [0] <= rows[i].key && FieldWanted(pattern, FieldOf(rows[i].key));
    if listed && n == 0 {
      p := i;
    } else {
      p := RowOf(rows, prefix, pattern, i + 1, if listed then n - 1 else n);
    }
  }
}
