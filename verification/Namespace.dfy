/**
  Physical namespaces: the sentinel of a compound value may record, in a
  trailer, the prefix its elements live under.
 */
module Namespace {
  import opened ByteStrings
  import opened Store

  const NAMESPACE_FLAG: int := 0x80
  const ID_LENGTH: nat := 16

  const TYPE_STRING: Byte := 0
  const TYPE_LIST: Byte := 1
  const TYPE_SET: Byte := 2
  const TYPE_SORTED_SET: Byte := 3
  const TYPE_HASH: Byte := 4
  const TYPE_STREAM: Byte := 5
  const TYPE_BLOOM: Byte := 7

  function BaseType(meta: Byte): Byte { meta % NAMESPACE_FLAG }

  predicate IsNamespaced(meta: Byte) { meta >= NAMESPACE_FLAG }

  datatype ElementPrefix = ElementPrefix(bytes: Bytes, explicit: bool)

  function Legacy(bytes: Bytes): ElementPrefix { ElementPrefix(bytes, false) }

  function Explicit(bytes: Bytes): ElementPrefix { ElementPrefix(bytes, true) }

  /** The name-derived prefix of a public key. */
  function LegacyPrefix(public: Bytes): Bytes { [MINUS] + public }

  // ---- The trailer -------------------------------------------------------

  function SplitTrailer(value: Bytes): Result<(Bytes, Bytes), DbError> {
    if |value| < 4 then Err(Corrupt)
    else
      var lenAt := |value| - 4;
      var len := FromBigEndian(value[lenAt..]);
      if len > lenAt then Err(Corrupt) else Ok((value[..lenAt - len], value[lenAt - len..lenAt]))
  }

  function Payload(item: Item): Result<Bytes, DbError> {
    if !IsNamespaced(item.meta) then Ok(item.value)
    else match SplitTrailer(item.value)
      case Ok((payload, _)) => Ok(payload)
      case Err(e) => Err(e)
  }

  function PrefixOf(item: Item, legacy: Bytes): Result<ElementPrefix, DbError> {
    if !IsNamespaced(item.meta) then Ok(Legacy(legacy))
    else match SplitTrailer(item.value)
      case Ok((_, prefix)) => Ok(Explicit(prefix))
      case Err(e) => Err(e)
  }

  function EncodeSentinel(payload: Bytes, typeByte: Byte, prefix: ElementPrefix): (Bytes, Byte) {
    if !prefix.explicit then (payload, typeByte)
    else (payload + prefix.bytes + BigEndian(|prefix.bytes|, 4),
          if IsNamespaced(typeByte) then typeByte else typeByte + NAMESPACE_FLAG)
  }

  /** A sentinel gives back the payload, the type and the prefix it was written with. */
  lemma SentinelRoundTrip(payload: Bytes, typeByte: Byte, prefix: ElementPrefix, expiry: Option<int>, legacy: Bytes)
    requires typeByte < NAMESPACE_FLAG && if prefix.explicit then |prefix.bytes| < Pow256(4) else prefix.bytes == legacy
    ensures var (value, meta) := EncodeSentinel(payload, typeByte, prefix);
      var item := Item(value, meta, expiry);
      Payload(item) == Ok(payload) && PrefixOf(item, legacy) == Ok(prefix) && BaseType(meta) == typeByte
  {
    if prefix.explicit {
      var value := EncodeSentinel(payload, typeByte, prefix).0;
      var lenAt := |value| - 4;
      assert value[lenAt..] == BigEndian(|prefix.bytes|, 4);
      BigEndianRoundTrip(|prefix.bytes|, 4);
      assert value[..lenAt - |prefix.bytes|] == payload;
      assert value[lenAt - |prefix.bytes|..lenAt] == prefix.bytes;
    }
  }

  /** Payload, type and recorded namespace determine a sentinel. */
  lemma SentinelDetermined(item: Item, payload: Bytes, typeByte: Byte, prefix: Bytes, legacy: Bytes)
    requires BaseType(item.meta) == typeByte && Payload(item) == Ok(payload)
      && PrefixOf(item, legacy) == Ok(Explicit(prefix))
    ensures (item.value, item.meta) == EncodeSentinel(payload, typeByte, Explicit(prefix))
  {
    var lenAt := |item.value| - 4;
    BigEndianOf(item.value[lenAt..]);
    assert item.value == payload + prefix + item.value[lenAt..];
  }

  /** The entry a sentinel is rewritten to: it keeps the key's expiry. */
  function SentinelItem(data: Data, public: Bytes, payload: Bytes, typeByte: Byte, prefix: ElementPrefix): Item {
    var (value, meta) := EncodeSentinel(payload, typeByte, prefix);
    Item(value, meta, ExpiryOf(data, public))
  }

  /** Writes the sentinel of a compound value; dropping a recorded namespace is refused. */
  method WriteSentinel(tx: Tx, public: Bytes, payload: Bytes, typeByte: Byte, prefix: ElementPrefix)
    returns (r: Result<(), DbError>)
    modifies tx
    ensures r.Ok? <==> !(public in old(tx.data) && IsNamespaced(old(tx.data)[public].meta) && !prefix.explicit)
    ensures tx.data == if r.Ok? then
      old(tx.data)[public := SentinelItem(old(tx.data), public, payload, typeByte, prefix)] else old(tx.data)
  {
    var existing := tx.Get(public);
    if existing.Some? && IsNamespaced(existing.value.meta) && !prefix.explicit {
      return Err(Message("namespaced sentinel rewritten without its namespace"));
    }
    var (value, meta) := EncodeSentinel(payload, typeByte, prefix);
    tx.Set(public, Item(value, meta, if existing.Some? then existing.value.expiry else None));
    return Ok(());
  }

  // ---- Namespaces --------------------------------------------------------

  /** The namespace `+<db>:` followed by a fixed-length identifier. */
  function NamespaceOf(db: nat, id: Bytes): Bytes
    requires |id| == ID_LENGTH
  {
    [PLUS] + Decimal(db) + [COLON] + id
  }

  /** The position of the first colon, or the length when there is none. */
  function FindColon(b: Bytes): (i: nat)
    ensures i <= |b| && (i < |b| ==> b[i] == COLON) && forall j :: 0 <= j < i ==> b[j] != COLON
  {
    if b == [] || b[0] == COLON then 0 else 1 + FindColon(b[1..])
  }

  predicate AllDigits(b: Bytes) { forall i :: 0 <= i < |b| ==> IsDigit(b[i]) }

  /** The same prefix with its database number replaced, for a prefix `<kind><db>:<rest>`. */
  function WithDb(prefix: Bytes, db: nat): Option<Bytes> {
    if prefix == [] then None
    else
      var colon := FindColon(prefix);
      if colon == |prefix| || colon <= 1 || !AllDigits(prefix[1..colon]) then None
      else Some(prefix[..1] + Decimal(db) + prefix[colon..])
  }

  lemma FindColonAt(b: Bytes, i: nat)
    requires i < |b| && b[i] == COLON && forall j :: 0 <= j < i ==> b[j] != COLON
    ensures FindColon(b) == i
  {
  }

  /** Changing the database of a namespace changes nothing else of it. */
  lemma WithDbNamespace(db: nat, id: Bytes, target: nat)
    requires |id| == ID_LENGTH
    ensures WithDb(NamespaceOf(db, id), target) == Some(NamespaceOf(target, id))
  {
    var p := NamespaceOf(db, id);
    var colon := 1 + |Decimal(db)|;
    assert p[0] == PLUS && p[colon] == COLON;
    assert forall j :: 1 <= j < colon ==> p[j] == Decimal(db)[j - 1];
    FindColonAt(p, colon);
    assert p[1..colon] == Decimal(db) && p[..1] == [PLUS] && p[colon..] == [COLON] + id;
    assert p[..1] + Decimal(target) + p[colon..] == NamespaceOf(target, id);
  }

  /** No namespace is a proper prefix of another one's entries: the keys below two namespaces never meet. */
  lemma NamespacesPrefixFree(db: nat, id: Bytes, db': nat, id': Bytes, s: Bytes, s': Bytes)
    requires |id| == ID_LENGTH && |id'| == ID_LENGTH
    requires NamespaceOf(db, id) + s == NamespaceOf(db', id') + s'
    ensures db == db' && id == id' && s == s'
  {
    var k := NamespaceOf(db, id) + s;
    assert k[1..] == Decimal(db) + ([COLON] + id + s) == Decimal(db') + ([COLON] + id' + s');
    DecimalPrefix(db, db', [COLON] + id + s, [COLON] + id' + s');
    var rest := [COLON] + id + s;
    assert id == rest[1..1 + ID_LENGTH] == id' && s == rest[1 + ID_LENGTH..] == s';
  }

  /** The prefix of a new value: the namespace of its database with a fresh identifier. */
  function NewNamespace(legacy: Bytes, id: Bytes): Result<ElementPrefix, DbError>
    requires |id| == ID_LENGTH
  {
    var colon := FindColon(legacy);
    if colon == |legacy| || colon <= 1 || !AllDigits(legacy[1..colon]) then Err(Corrupt)
    else Ok(Explicit([PLUS] + legacy[1..colon] + [COLON] + id))
  }

  /** The storage key of a public name in a database. */
  function PublicKey(db: nat, name: Bytes): Bytes { Decimal(db) + [COLON] + name }

  lemma NewNamespaceOfPublicKey(db: nat, name: Bytes, id: Bytes)
    requires |id| == ID_LENGTH
    ensures NewNamespace(LegacyPrefix(PublicKey(db, name)), id) == Ok(Explicit(NamespaceOf(db, id)))
  {
    var p := LegacyPrefix(PublicKey(db, name));
    var colon := 1 + |Decimal(db)|;
    assert p[colon] == COLON;
    assert forall j :: 1 <= j < colon ==> p[j] == Decimal(db)[j - 1];
    FindColonAt(p, colon);
    assert p[1..colon] == Decimal(db);
  }

  /**
    Where a value may be: its elements lie under a recorded namespace or the
    name-derived prefix, apart from the public entry.
   */
  predicate Placed(public: Bytes, prefix: ElementPrefix) {
    && (if prefix.explicit then |prefix.bytes| < Pow256(4) else prefix.bytes == LegacyPrefix(public))
    && !(prefix.bytes <= public)
  }

  /** Only the public entry of a value and entries under its prefix differ. */
  ghost predicate OnlyValue(data: Data, data': Data, public: Bytes, prefix: Bytes) {
    forall e :: e != public && !(prefix <= e) ==> Lookup(data', e) == Lookup(data, e)
  }
}
