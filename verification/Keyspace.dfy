/**
  The keyspace over the store: RENAME, RENAMENX, MOVE, DEL, expiry and the
  writing of values refine a plain map from keys to values, although the store
  keeps the elements of a value under a namespace its sentinel records.
 */
module Keyspace {
  import opened ByteStrings
  import opened Store
  import opened Namespace
  import opened LinkedList
  import opened ListStore
  import opened ListWalk
  import opened Elements

  type Db = n: nat | n < 0x8000_0000
  type Id = NodeKey

  datatype Key = Key(db: Db, name: Bytes)

  /** The entry of an element: its value and type byte; elements have no expiry. */
  datatype Cell = Cell(value: Bytes, meta: Byte)

  datatype Value = Value(kind: Byte, payload: Bytes, elems: map<Bytes, Cell>, expiry: Option<int>)

  function Public(k: Key): Bytes { PublicKey(k.db, k.name) }

  function Entry(db: Db, id: Id, s: Bytes): Bytes { NamespaceOf(db, id) + s }

  // ---- Names -------------------------------------------------------------

  lemma PublicInjective(k: Key, l: Key)
    ensures Public(k) == Public(l) ==> k == l
  {
    if Public(k) == Public(l) {
      assert Public(k) == Decimal(k.db) + ([COLON] + k.name) && Public(l) == Decimal(l.db) + ([COLON] + l.name);
      DecimalPrefix(k.db, l.db, [COLON] + k.name, [COLON] + l.name);
      assert k.name == ([COLON] + k.name)[1..];
    }
  }

  lemma EntryInjective(db: Db, id: Id, s: Bytes, db': Db, id': Id, s': Bytes)
    ensures Entry(db, id, s) == Entry(db', id', s') ==> db == db' && id == id' && s == s'
    ensures NamespaceOf(db', id') <= Entry(db, id, s) <==> db == db' && id == id'
  {
    if Entry(db, id, s) == Entry(db', id', s') {
      NamespacesPrefixFree(db, id, db', id', s, s');
    }
    var e, ns' := Entry(db, id, s), NamespaceOf(db', id');
    if ns' <= e {
      assert e == ns' + e[|ns'|..];
      NamespacesPrefixFree(db, id, db', id', s, e[|ns'|..]);
    }
  }

  /** A key the keyspace uses: a public one, or one under a namespace. */
  ghost predicate Known(e: Bytes) {
    (exists k: Key :: e == Public(k)) || (exists db: Db, id: Id, s :: e == Entry(db, id, s))
  }

  lemma PublicKnown(k: Key)
    ensures Known(Public(k))
  {
  }

  lemma EntryUnder(e: Bytes, db: Db, id: Id)
    ensures var ns := NamespaceOf(db, id); ns <= e ==> e == Entry(db, id, e[|ns|..]) && Known(e)
  {
  }

  lemma PublicNotEntry(k: Key, db: Db, id: Id)
    ensures !(NamespaceOf(db, id) <= Public(k))
  {
    assert Public(k)[0] == Decimal(k.db)[0];
  }

  lemma EntryOrigin(db: Db, to: Db, id: Id, s: Bytes)
    ensures Origin(Entry(to, id, s), NamespaceOf(db, id), NamespaceOf(to, id)) == Entry(db, id, s)
  {
  }

  lemma {:induction false} DecimalLength(n: nat, digits: nat, bound: nat)
    requires n < bound && bound == Pow10(digits) && digits > 0
    ensures |Decimal(n)| <= digits
    decreases digits
  {
    if digits > 1 && n >= 10 { DecimalLength(n / 10, digits - 1, Pow10(digits - 1)); }
  }

  function Pow10(n: nat): nat { if n == 0 then 1 else 10 * Pow10(n - 1) }

  lemma NamespaceLength(db: Db, id: Id)
    ensures |NamespaceOf(db, id)| < Pow256(4)
  {
    assert Pow10(10) == 10000000000 by { assert Pow10(5) == 100000; assert Pow10(10) == 100000 * Pow10(5); }
    DecimalLength(db, 10, 10000000000);
    assert Pow256(4) == 4294967296;
  }

  // ---- Values in the store -----------------------------------------------

  ghost predicate ListShape(v: Value, keys: seq<NodeKey>, vals: seq<Bytes>) {
    && keys != [] && |keys| == |vals| && |keys| < Pow256(4) && GoodKeys(keys)
    && v.payload == SentinelPayload(|keys|, First(keys), Last(keys))
    && (forall k: NodeKey :: [COLON] + k in v.elems ==> k in keys)
    && (forall i :: 0 <= i < |keys| ==> ElemAt(v, [COLON] + keys[i]) == Some(NodeItem(NodeAt(keys, vals, i))))
  }

  /** What a command of the value's type leaves: entries of its family only; a list is a chain. */
  ghost predicate GoodValue(v: Value) {
    && v.kind < NAMESPACE_FLAG
    && (forall s :: s in v.elems ==> InFamily(v.kind, s))
    && (v.kind == TYPE_LIST ==> exists keys, vals :: ListShape(v, keys, vals))
  }

  function ElemAt(v: Value, s: Bytes): Option<Item> {
    if s in v.elems then Some(Item(v.elems[s].value, v.elems[s].meta, None)) else None
  }

  /** The public entry of a value: a sentinel recording its namespace, or the value itself. */
  function ItemOf(db: Db, v: Value, id: Option<Id>): Item {
    if id.None? then Item(v.payload, v.kind, v.expiry)
    else
      var (value, meta) := EncodeSentinel(v.payload, v.kind, Explicit(NamespaceOf(db, id.value)));
      Item(value, meta, v.expiry)
  }

  /** The keyspace, the identifiers of the namespaces the compound values live in, and every identifier drawn so far. */
  datatype State = State(values: map<Key, Value>, ids: map<Key, Id>, used: set<Id>)

  function IdAt(ids: map<Key, Id>, k: Key): Option<Id> { if k in ids then Some(ids[k]) else None }

  ghost predicate ValuesStored(data: Data, st: State) {
    forall k :: k in st.values ==>
      && GoodValue(st.values[k]) && (k in st.ids <==> HasElements(st.values[k].kind))
      && Lookup(data, Public(k)) == Some(ItemOf(k.db, st.values[k], IdAt(st.ids, k)))
  }

  ghost predicate OnlyValues(data: Data, st: State) {
    forall k: Key :: Public(k) in data ==> k in st.values
  }

  /** No two live keys share a namespace. */
  ghost predicate OwnSpaces(st: State) {
    && (forall k :: k in st.ids ==> k in st.values && st.ids[k] in st.used)
    && (forall k, l :: k in st.ids && l in st.ids && st.ids[k] == st.ids[l] ==> k == l)
  }

  ghost predicate ElementsStored(data: Data, st: State) {
    forall k, s :: k in st.ids && k in st.values ==> Lookup(data, Entry(k.db, st.ids[k], s)) == ElemAt(st.values[k], s)
  }

  ghost predicate SpacesKnown(data: Data, st: State) {
    forall db: Db, id: Id, s :: Entry(db, id, s) in data ==>
      id in st.used && forall k :: k in st.ids && st.ids[k] == id ==> k.db == db
  }

  ghost predicate Clean(data: Data) { forall e :: e in data ==> Known(e) }

  ghost predicate Refines(data: Data, st: State) {
    && ValuesStored(data, st) && OnlyValues(data, st) && OwnSpaces(st) && ElementsStored(data, st)
    && SpacesKnown(data, st) && Clean(data)
  }

  /** The public item gives back type, payload and prefix. */
  lemma ItemFacts(k: Key, v: Value, id: Option<Id>)
    requires v.kind < NAMESPACE_FLAG
    ensures var item := ItemOf(k.db, v, id);
      && BaseType(item.meta) == v.kind && Payload(item) == Ok(v.payload) && item.expiry == v.expiry
      && PrefixOf(item, LegacyPrefix(Public(k))) == Ok(if id.Some? then Explicit(NamespaceOf(k.db, id.value))
        else Legacy(LegacyPrefix(Public(k))))
  {
    if id.Some? {
      NamespaceLength(k.db, id.value);
      SentinelRoundTrip(v.payload, v.kind, Explicit(NamespaceOf(k.db, id.value)), v.expiry, LegacyPrefix(Public(k)));
    }
  }

  /** What the store holds for one compound key. */
  ghost predicate HoldsAt(data: Data, k: Key, v: Value, id: Id) {
    && Lookup(data, Public(k)) == Some(ItemOf(k.db, v, Some(id)))
    && forall s :: Lookup(data, Entry(k.db, id, s)) == ElemAt(v, s)
  }

  lemma Compound(data: Data, st: State, k: Key)
    requires Refines(data, st) && k in st.ids
    ensures k in st.values && GoodValue(st.values[k]) && HoldsAt(data, k, st.values[k], st.ids[k])
  {
    hide Public, Entry, ItemOf, ElemAt, Clean, GoodValue;
  }

  /** The entries under the namespace of a live key are its elements and nothing else. */
  lemma SpaceTidy(data: Data, st: State, k: Key) returns (keys: seq<NodeKey>, vals: seq<Bytes>)
    requires Refines(data, st) && k in st.ids
    ensures k in st.values && Tidy(data, Public(k), st.values[k].kind, NamespaceOf(k.db, st.ids[k]), keys, vals)
  {
    hide Refines, Public, Entry, NamespaceOf, ItemOf, ListShape, Chained;
    Compound(data, st, k);
    var v, ns := st.values[k], NamespaceOf(k.db, st.ids[k]);
    keys, vals := [], [];
    forall e | e in data && ns <= e ensures InFamily(v.kind, e[|ns|..]) && data[e].expiry.None? {
      EntryUnder(e, k.db, st.ids[k]);
      assert Lookup(data, Entry(k.db, st.ids[k], e[|ns|..])) == ElemAt(v, e[|ns|..]);
    }
    if v.kind == TYPE_LIST {
      keys, vals :| ListShape(v, keys, vals);
      ListTidy(data, k, v, st.ids[k], keys, vals);
    }
  }

  lemma ListTidy(data: Data, k: Key, v: Value, id: Id, keys: seq<NodeKey>, vals: seq<Bytes>)
    requires HoldsAt(data, k, v, id) && ListShape(v, keys, vals) && v.kind == TYPE_LIST
    ensures var ns := NamespaceOf(k.db, id);
      Chained(data, Public(k), ns, keys, vals) && forall l: NodeKey :: NodeEntry(ns, l) in data ==> l in keys
  {
    hide Public, NamespaceOf, EncodeNode, SentinelPayload, ReadSentinel, ItemOf;
    var ns := NamespaceOf(k.db, id);
    forall l: NodeKey ensures Lookup(data, NodeEntry(ns, l)) == ElemAt(v, [COLON] + l) {
      assert NodeEntry(ns, l) == Entry(k.db, id, [COLON] + l);
    }
    assert forall i :: 0 <= i < |keys| ==> NodeStored(data, ns, keys, vals, i);
    ListSentinel(k, v, id, keys, vals);
  }

  lemma ListSentinel(k: Key, v: Value, id: Id, keys: seq<NodeKey>, vals: seq<Bytes>)
    requires ListShape(v, keys, vals) && v.kind == TYPE_LIST
    ensures ReadSentinel(Some(ItemOf(k.db, v, Some(id)))) == Ok((|keys|, keys[0], keys[|keys| - 1]))
  {
    hide ItemOf, ElemAt;
    ItemFacts(k, v, Some(id));
    SentinelPayloadRoundTrip(ItemOf(k.db, v, Some(id)), |keys|, First(keys), Last(keys));
  }

  // ---- What the operations do to the keyspace ----------------------------

  ghost function Without(st: State, k: Key): State { State(st.values - {k}, st.ids - {k}, st.used) }

  ghost predicate PublicsKept(data: Data, data': Data, k: Key, l: Key) {
    forall m: Key :: m != k && m != l ==> Lookup(data', Public(m)) == Lookup(data, Public(m))
  }

  /** Of one namespace entries may go; all others are as before. */
  ghost predicate SpaceDropped(data: Data, data': Data, k: Key, id: Option<Id>) {
    forall db: Db, i: Id, s ::
      || Lookup(data', Entry(db, i, s)) == Lookup(data, Entry(db, i, s))
      || (id == Some(i) && db == k.db && Lookup(data', Entry(db, i, s)).None?)
  }

  /** The elements of `v` have moved to the database of `to`; all other namespaces are as before. */
  ghost predicate SpaceMoved(data: Data, data': Data, to: Key, v: Value, id: Option<Id>) {
    forall db: Db, i: Id, s :: Lookup(data', Entry(db, i, s)) ==
                               if id == Some(i) then (if db == to.db then ElemAt(v, s) else None)
                                 else Lookup(data, Entry(db, i, s))
  }

  /** One namespace holds the elements of `v`; all others are as before. */
  ghost predicate SpaceWritten(data: Data, data': Data, k: Key, v: Value, id: Option<Id>) {
    forall db: Db, i: Id, s :: Lookup(data', Entry(db, i, s)) ==
                               if id == Some(i) && db == k.db then ElemAt(v, s) else Lookup(data, Entry(db, i, s))
  }

  /** A key goes: its public entry, and of its namespace anything or nothing. */
  lemma Removed(data: Data, data': Data, st: State, k: Key)
    requires Refines(data, st) && k in st.values
    requires Public(k) !in data' && PublicsKept(data, data', k, k) && Clean(data')
    requires SpaceDropped(data, data', k, IdAt(st.ids, k))
    ensures Refines(data', Without(st, k))
  {
    hide Clean;
    RemovedValues(data, data', st, k);
    RemovedSpaces(data, data', st, k);
  }

  lemma RemovedValues(data: Data, data': Data, st: State, k: Key)
    requires ValuesStored(data, st) && OnlyValues(data, st) && Public(k) !in data' && PublicsKept(data, data', k, k)
    ensures ValuesStored(data', Without(st, k)) && OnlyValues(data', Without(st, k))
  {
    hide Public, ItemOf, GoodValue;
  }

  lemma RemovedSpaces(data: Data, data': Data, st: State, k: Key)
    requires OwnSpaces(st) && ElementsStored(data, st) && SpacesKnown(data, st)
    requires SpaceDropped(data, data', k, IdAt(st.ids, k))
    ensures OwnSpaces(Without(st, k)) && ElementsStored(data', Without(st, k)) && SpacesKnown(data', Without(st, k))
  {
    hide Entry, ElemAt;
  }

  function Renamed<T>(m: map<Key, T>, source: Key, to: Key): map<Key, T> {
    if source in m then (m - {source})[to := m[source]] else m
  }

  ghost function Relocate(st: State, k: Key, to: Key): State {
    State(Renamed(st.values, k, to), Renamed(st.ids, k, to), st.used)
  }

  /** A value goes to a free key with its contents; its namespace follows the database of the new key. */
  lemma Relocated(data: Data, data': Data, st: State, k: Key, to: Key)
    requires Refines(data, st) && k in st.values && to !in st.values
    requires Public(k) !in data' && PublicsKept(data, data', k, to) && Clean(data')
    requires Lookup(data', Public(to)) == Some(ItemOf(to.db, st.values[k], IdAt(st.ids, k)))
    requires SpaceMoved(data, data', to, st.values[k], IdAt(st.ids, k))
    ensures Refines(data', Relocate(st, k, to))
  {
    hide Clean;
    RelocatedValues(data, data', st, k, to);
    RelocatedSpaces(data, data', st, k, to);
  }

  lemma RelocatedValues(data: Data, data': Data, st: State, k: Key, to: Key)
    requires ValuesStored(data, st) && OnlyValues(data, st) && OwnSpaces(st) && k in st.values && to !in st.values
    requires Public(k) !in data' && PublicsKept(data, data', k, to)
    requires Lookup(data', Public(to)) == Some(ItemOf(to.db, st.values[k], IdAt(st.ids, k)))
    ensures ValuesStored(data', Relocate(st, k, to)) && OnlyValues(data', Relocate(st, k, to))
  {
    hide Public, ItemOf, GoodValue, HasElements, IdAt;
    var st' := Relocate(st, k, to);
    RelocatedId(st, k, to);
    forall m | m in st'.values
      ensures GoodValue(st'.values[m]) && (m in st'.ids <==> HasElements(st'.values[m].kind))
      ensures Lookup(data', Public(m)) == Some(ItemOf(m.db, st'.values[m], IdAt(st'.ids, m)))
    {
      if m != to {
        assert m in st.values && st'.values[m] == st.values[m];
        SameId(st, k, to, m);
      }
    }
  }

  lemma RelocatedId(st: State, k: Key, to: Key)
    requires to !in st.ids
    ensures IdAt(Relocate(st, k, to).ids, to) == IdAt(st.ids, k) && (to in Relocate(st, k, to).ids <==> k in st.ids)
  {
  }

  lemma SameId(st: State, k: Key, to: Key, m: Key)
    requires m != k && m != to
    ensures IdAt(Relocate(st, k, to).ids, m) == IdAt(st.ids, m)
  {
  }

  lemma RelocatedSpaces(data: Data, data': Data, st: State, k: Key, to: Key)
    requires OwnSpaces(st) && ElementsStored(data, st) && SpacesKnown(data, st) && k in st.values && to !in st.values
    requires SpaceMoved(data, data', to, st.values[k], IdAt(st.ids, k))
    ensures OwnSpaces(Relocate(st, k, to)) && ElementsStored(data', Relocate(st, k, to))
      && SpacesKnown(data', Relocate(st, k, to))
  {
    hide Entry, ElemAt;
  }

  ghost function Assign(st: State, k: Key, v: Value, id: Option<Id>): State {
    State(st.values[k := v],
          if id.Some? then st.ids[k := id.value] else st.ids,
          if id.Some? then st.used + {id.value} else st.used)
  }

  /** A value is written: at a missing key under a fresh namespace, at a present one under its own. */
  lemma Written(data: Data, data': Data, st: State, k: Key, v: Value, id: Option<Id>)
    requires Refines(data, st) && GoodValue(v) && (id.Some? <==> HasElements(v.kind))
    requires if k in st.values then id == IdAt(st.ids, k) else id.Some? ==> id.value !in st.used
    requires PublicsKept(data, data', k, k) && Lookup(data', Public(k)) == Some(ItemOf(k.db, v, id))
    requires SpaceWritten(data, data', k, v, id) && Clean(data')
    ensures Refines(data', Assign(st, k, v, id))
  {
    hide Clean;
    WrittenValues(data, data', st, k, v, id);
    WrittenSpaces(data, data', st, k, v, id);
  }

  lemma WrittenValues(data: Data, data': Data, st: State, k: Key, v: Value, id: Option<Id>)
    requires ValuesStored(data, st) && OnlyValues(data, st) && OwnSpaces(st) && GoodValue(v)
      && (id.Some? <==> HasElements(v.kind))
    requires k in st.values ==> id == IdAt(st.ids, k)
    requires PublicsKept(data, data', k, k) && Lookup(data', Public(k)) == Some(ItemOf(k.db, v, id))
    ensures ValuesStored(data', Assign(st, k, v, id)) && OnlyValues(data', Assign(st, k, v, id))
  {
    hide Public, ItemOf, GoodValue;
  }

  lemma WrittenSpaces(data: Data, data': Data, st: State, k: Key, v: Value, id: Option<Id>)
    requires OwnSpaces(st) && ElementsStored(data, st) && SpacesKnown(data, st)
    requires if k in st.values then id == IdAt(st.ids, k) else id.Some? ==> id.value !in st.used
    requires SpaceWritten(data, data', k, v, id)
    ensures OwnSpaces(Assign(st, k, v, id)) && ElementsStored(data', Assign(st, k, v, id))
      && SpacesKnown(data', Assign(st, k, v, id))
  {
    hide Entry, ElemAt;
  }

  // ---- The operations ----------------------------------------------------

  lemma Present(data: Data, st: State, k: Key)
    requires Refines(data, st)
    ensures k in st.values <==> Public(k) in data
    ensures k in st.values ==>
      && (k in st.ids <==> HasElements(st.values[k].kind)) && st.values[k].kind < NAMESPACE_FLAG
      && data[Public(k)] == ItemOf(k.db, st.values[k], IdAt(st.ids, k))
    ensures Clean(data)
  {
    hide Clean;
  }

  lemma OwnUsed(data: Data, st: State, k: Key)
    requires Refines(data, st)
    ensures k in st.ids ==> st.ids[k] in st.used
  {
    hide Clean;
  }

  /** Deletes the elements of the value at `k`. */
  method ClearValue(tx: Tx, k: Key, item: Item, ghost st: State) returns (r: Result<(), DbError>)
    requires Refines(tx.data, st) && Lookup(tx.data, Public(k)) == Some(item)
    modifies tx
    ensures k in st.values && r == Ok(()) && PublicsKept(old(tx.data), tx.data, k, k) && Public(k) in tx.data
    ensures SpaceDropped(old(tx.data), tx.data, k, IdAt(st.ids, k)) && Clean(tx.data)
    ensures k in st.ids ==> forall s :: Entry(k.db, st.ids[k], s) !in tx.data
  {
    assert Clean(tx.data);
    hide Refines, Clean;
    Present(tx.data, st, k);
    ItemFacts(k, st.values[k], IdAt(st.ids, k));
    ghost var data := tx.data;
    match PrefixOf(item, LegacyPrefix(Public(k)))
    case Err(e) =>
      return Err(e);
    case Ok(prefix) =>
      ghost var keys, vals := [], [];
      if k in st.ids { keys, vals := SpaceTidy(tx.data, st, k); }
      r := ClearElements(tx, Public(k), prefix.bytes, item.meta, keys, vals);
      if k in st.ids { SpaceCleared(data, tx.data, k, st.ids[k]); }
  }

  lemma SpaceCleared(data: Data, data': Data, k: Key, id: Id)
    requires Cleared(data, data', NamespaceOf(k.db, id))
    ensures SpaceDropped(data, data', k, Some(id))
      && forall l: Key :: Lookup(data', Public(l)) == Lookup(data, Public(l))
    ensures forall s :: Entry(k.db, id, s) !in data'
    ensures Clean(data) ==> Clean(data')
  {
    hide Public, Entry, Known;
    var ns := NamespaceOf(k.db, id);
    assert forall e :: e in data' ==> Lookup(data', e) == Lookup(data, e);
    forall l: Key ensures !(ns <= Public(l)) { PublicNotEntry(l, k.db, id); }
    forall db: Db, i: Id, s ensures ns <= Entry(db, i, s) <==> db == k.db && i == id {
      EntryInjective(db, i, s, k.db, id, s);
    }
    forall s ensures Entry(k.db, id, s) !in data' {
      assert ns <= Entry(k.db, id, s);
      assert Lookup(data', Entry(k.db, id, s)).None?;
    }
  }

  /** RENAME's move of the value `item` from `k` to `to`, replacing what is there. */
  method RenameEntry(tx: Tx, k: Key, to: Key, item: Item, ghost st: State)
    returns (r: Result<(), DbError>, ghost st': State)
    requires Refines(tx.data, st) && Lookup(tx.data, Public(k)) == Some(item) && k.db == to.db
    modifies tx
    ensures k in st.values && r == Ok(()) && Refines(tx.data, st')
    ensures st' == if k == to then st else Relocate(Without(st, to), k, to)
    ensures k != to && to in st.ids ==> forall s :: Entry(to.db, st.ids[to], s) !in tx.data
  {
    hide Refines, Entry;
    IdsOfValues(tx.data, st);
    Present(tx.data, st, k);
    Present(tx.data, st, to);
    if k == to {
      return Ok(()), st;
    }
    ghost var data := tx.data;
    var existing := tx.Get(Public(to));
    if existing.Some? {
      var cleared := ClearValue(tx, to, existing.value, st);
      if cleared != Ok(()) {
        return cleared, st;
      }
    }
    st' := Without(st, to);
    RenameCleared(data, tx.data, st, k, to);
    ItemFacts(k, st.values[k], IdAt(st.ids, k));
    match PrefixOf(item, LegacyPrefix(Public(k)))
    case Err(e) =>
      return Err(e), st;
    case Ok(source) =>
      var (value, meta) := if source.explicit || !HasElements(BaseType(item.meta)) then (item.value, item.meta)
                           else EncodeSentinel(item.value, item.meta, Explicit(source.bytes));
      assert Item(value, meta, item.expiry) == item;
      hide Public, ItemOf, Clean;
      RenamePlaced(tx.data, st', k, to);
      tx.Set(Public(to), Item(value, meta, item.expiry));
      tx.Delete(Public(k));
      return Ok(()), Relocate(st', k, to);
  }

  /** Changing one public entry changes no other public entry and no element. */
  ghost predicate PublicOnly(data: Data, data': Data, k: Key) {
    && PublicsKept(data, data', k, k)
    && forall db: Db, i: Id, s :: Lookup(data', Entry(db, i, s)) == Lookup(data, Entry(db, i, s))
  }

  lemma PublicChanged(data: Data, k: Key, item: Item)
    ensures PublicOnly(data, data[Public(k) := item], k) && PublicOnly(data, data - {Public(k)}, k)
    ensures Clean(data) ==> Clean(data[Public(k) := item]) && Clean(data - {Public(k)})
  {
    hide Public, Entry;
    PublicKnown(k);
    hide Known;
    forall l: Key ensures Public(k) == Public(l) ==> k == l { PublicInjective(k, l); }
    forall db: Db, i: Id, s ensures Entry(db, i, s) != Public(k) {
      PublicNotEntry(k, db, i);
      EntryInjective(db, i, s, db, i, s);
    }
  }

  lemma RenameCleared(data: Data, data': Data, st: State, k: Key, to: Key)
    requires Refines(data, st) && k in st.values && k != to
    requires if to in st.values
      then PublicsKept(data, data', to, to) && SpaceDropped(data, data', to, IdAt(st.ids, to)) && Clean(data')
      else data' == data
    ensures Refines(data' - {Public(to)}, Without(st, to)) && Lookup(data', Public(k)) == Lookup(data, Public(k))
  {
    hide Refines, Public, Entry, Clean;
    Present(data, st, to);
    if to in st.values {
      PublicChanged(data', to, Item([], 0, None));
      Removed(data, data' - {Public(to)}, st, to);
    } else {
      IdsOfValues(data, st);
      assert data' - {Public(to)} == data && st.values - {to} == st.values && st.ids - {to} == st.ids;
    }
  }

  lemma IdsOfValues(data: Data, st: State)
    requires Refines(data, st)
    ensures forall k :: k in st.ids ==> k in st.values
  {
  }

  lemma RenameMoved(data: Data, data': Data, st: State, k: Key, to: Key)
    requires Refines(data, st) && k in st.values && to !in st.values && k.db == to.db
    requires data' == data[Public(to) := ItemOf(k.db, st.values[k], IdAt(st.ids, k))] - {Public(k)}
    ensures Refines(data', Relocate(st, k, to))
  {
    assert Clean(data);
    hide Refines, Public, Entry, ItemOf, Clean;
    var item := ItemOf(k.db, st.values[k], IdAt(st.ids, k));
    PublicChanged(data, to, item);
    PublicChanged(data[Public(to) := item], k, item);
    PublicInjective(k, to);
    StaysInPlace(data, st, k, to);
    Relocated(data, data', st, k, to);
  }

  /** The same over whatever is left at the new name. */
  lemma RenamePlaced(data: Data, st: State, k: Key, to: Key)
    requires Refines(data - {Public(to)}, st) && k in st.values && to !in st.values && k.db == to.db
    ensures var data' := data[Public(to) := ItemOf(k.db, st.values[k], IdAt(st.ids, k))] - {Public(k)};
      && Refines(data', Relocate(st, k, to))
      && forall db: Db, i: Id, s :: Lookup(data', Entry(db, i, s)) == Lookup(data, Entry(db, i, s))
  {
    hide Refines, Public, Entry, ItemOf, Clean;
    var item, free := ItemOf(k.db, st.values[k], IdAt(st.ids, k)), data - {Public(to)};
    PublicChanged(data, to, item);
    PublicChanged(data[Public(to) := item], k, item);
    assert data[Public(to) := item] - {Public(k)} == free[Public(to) := item] - {Public(k)};
    RenameMoved(free, data[Public(to) := item] - {Public(k)}, st, k, to);
  }

  /** Under a new name in the same database the elements are already where they belong. */
  lemma StaysInPlace(data: Data, st: State, k: Key, to: Key)
    requires Refines(data, st) && k in st.values && k.db == to.db
    ensures SpaceMoved(data, data, to, st.values[k], IdAt(st.ids, k))
  {
    hide Entry, ElemAt, Public, ItemOf, GoodValue;
  }

  /** RENAME on the plain keyspace. */
  function RenameIn<T>(m: map<Key, T>, k: Key, to: Key): map<Key, T> {
    if k == to || k !in m then m else (m - {to} - {k})[to := m[k]]
  }

  /** RENAME: null for a missing key. */
  method Rename(tx: Tx, k: Key, to: Key, ghost st: State) returns (r: Result<bool, DbError>, ghost st': State)
    requires Refines(tx.data, st) && k.db == to.db
    modifies tx
    ensures Refines(tx.data, st') && st'.values == RenameIn(st.values, k, to) && st'.used == st.used
    ensures r == Ok(k in st.values)
    ensures k in st.values && k != to && to in st.ids ==> forall s :: Entry(to.db, st.ids[to], s) !in tx.data
  {
    hide Refines, Public, Entry;
    Present(tx.data, st, k);
    var item := tx.Get(Public(k));
    if item.None? {
      return Ok(false), st;
    }
    var done;
    done, st' := RenameEntry(tx, k, to, item.value, st);
    r := if done == Ok(()) then Ok(true) else Err(Corrupt);
  }

  /** RENAMENX: 0 when the destination exists, even as the source itself; null for a missing key. */
  method RenameNx(tx: Tx, k: Key, to: Key, ghost st: State) returns (r: Result<Option<nat>, DbError>, ghost st': State)
    requires Refines(tx.data, st) && k.db == to.db
    modifies tx
    ensures Refines(tx.data, st') && st'.values == (if to in st.values then st.values else RenameIn(st.values, k, to))
      && st'.used == st.used
    ensures r == Ok(if to in st.values then Some(0) else if k in st.values then Some(1) else None)
  {
    hide Refines, Public;
    Present(tx.data, st, k);
    Present(tx.data, st, to);
    if tx.Get(Public(to)).Some? {
      return Ok(Some(0)), st;
    }
    var item := tx.Get(Public(k));
    if item.None? {
      return Ok(None), st;
    }
    var done;
    done, st' := RenameEntry(tx, k, to, item.value, st);
    r := if done == Ok(()) then Ok(Some(1)) else Err(Corrupt);
  }

  /** The prefix a value has in another database. */
  function TargetPrefix(from: ElementPrefix, target: Bytes, db: Db): Result<ElementPrefix, DbError> {
    if !from.explicit then Ok(Legacy(LegacyPrefix(target)))
    else match WithDb(from.bytes, db)
      case None => Err(Corrupt)
      case Some(prefix) => Ok(Explicit(prefix))
  }

  /** The public entry a moved value gets. */
  function TargetItem(item: Item, to: ElementPrefix): Result<Item, DbError> {
    if !to.explicit then Ok(item)
    else match Payload(item)
      case Err(e) => Err(e)
      case Ok(payload) =>
        var (value, meta) := EncodeSentinel(payload, BaseType(item.meta), to);
        Ok(Item(value, meta, item.expiry))
  }

  lemma TargetFacts(k: Key, target: Key, v: Value, id: Option<Id>)
    requires v.kind < NAMESPACE_FLAG
    ensures var from := if id.Some? then Explicit(NamespaceOf(k.db, id.value)) else Legacy(LegacyPrefix(Public(k)));
      var to := if id.Some? then Explicit(NamespaceOf(target.db, id.value)) else Legacy(LegacyPrefix(Public(target)));
      && PrefixOf(ItemOf(k.db, v, id), LegacyPrefix(Public(k))) == Ok(from)
        && BaseType(ItemOf(k.db, v, id).meta) == v.kind
      && TargetPrefix(from, Public(target), target.db) == Ok(to)
        && TargetItem(ItemOf(k.db, v, id), to) == Ok(ItemOf(target.db, v, id))
  {
    ItemFacts(k, v, id);
    if id.Some? { WithDbNamespace(k.db, id.value, target.db); }
  }

  /** MOVE on the plain keyspace. */
  predicate Moves<T>(m: map<Key, T>, k: Key, db: Db) { k.db != db && k in m && Key(db, k.name) !in m }

  /** MOVE: an error within one database, 0 when there is nothing to move or something in the way. */
  method Move(tx: Tx, k: Key, db: Db, ghost st: State) returns (r: Result<nat, DbError>, ghost st': State)
    requires Refines(tx.data, st)
    modifies tx
    ensures Refines(tx.data, st')
      && st'.values == (if Moves(st.values, k, db) then Renamed(st.values, k, Key(db, k.name)) else st.values)
      && st'.used == st.used
    ensures if k.db == db then r.Err? else r == Ok(if Moves(st.values, k, db) then 1 else 0)
  {
    hide Refines, Public, ItemOf;
    if k.db == db {
      return Err(Message("source and destination objects are the same")), st;
    }
    var target := Key(db, k.name);
    Present(tx.data, st, k);
    Present(tx.data, st, target);
    var item := tx.Get(Public(k));
    if item.None? || tx.Get(Public(target)).Some? {
      return Ok(0), st;
    }
    ghost var data := tx.data;
    TargetFacts(k, target, st.values[k], IdAt(st.ids, k));
    match PrefixOf(item.value, LegacyPrefix(Public(k)))
    case Err(e) => return Err(e), st;
    case Ok(from) =>
      match TargetPrefix(from, Public(target), db)
      case Err(e) => return Err(e), st;
      case Ok(to) =>
        var done := MoveValue(tx, k, target, item.value, from, to, st);
        match TargetItem(item.value, to)
        case Err(e) => return Err(e), st;
        case Ok(moved) =>
          MoveDone(data, tx.data, st, k, target);
          tx.Set(Public(target), moved);
          tx.Delete(Public(k));
          st' := Relocate(st, k, target);
          return if done == Ok(()) then Ok(1) else Err(Corrupt), st';
  }

  method MoveValue(tx: Tx, k: Key, target: Key, item: Item, from: ElementPrefix, to: ElementPrefix, ghost st: State)
    returns (r: Result<(), DbError>)
    requires Refines(tx.data, st) && k in st.values && target !in st.values && k.db != target.db
    requires BaseType(item.meta) == st.values[k].kind
    requires k in st.ids ==> from.bytes == NamespaceOf(k.db, st.ids[k]) && to.bytes == NamespaceOf(target.db, st.ids[k])
    modifies tx
    ensures r == Ok(()) && SpaceMoved(old(tx.data), tx.data, target, st.values[k], IdAt(st.ids, k)) && Clean(tx.data)
    ensures forall l: Key :: Lookup(tx.data, Public(l)) == Lookup(old(tx.data), Public(l))
  {
    hide Refines, Public, Entry, ItemOf, ElemAt, Clean;
    Present(tx.data, st, k);
    ghost var data := tx.data;
    ghost var keys, vals := [], [];
    if k in st.ids {
      keys, vals := SpaceTidy(tx.data, st, k);
      SpaceMovable(tx.data, st, k, target);
    }
    r := MoveElements(tx, Public(k), BaseType(item.meta), from.bytes, to.bytes, keys, vals);
    if k in st.ids { SpaceTransferred(data, tx.data, st, k, target); } else { StaysOut(data, st, k, target); }
  }

  lemma MoveDone(data: Data, moved: Data, st: State, k: Key, target: Key)
    requires Refines(data, st) && k in st.values && target !in st.values && k.db != target.db
    requires SpaceMoved(data, moved, target, st.values[k], IdAt(st.ids, k))
    requires Clean(moved) && forall l: Key :: Lookup(moved, Public(l)) == Lookup(data, Public(l))
    ensures Refines(moved[Public(target) := ItemOf(target.db, st.values[k], IdAt(st.ids, k))] - {Public(k)},
      Relocate(st, k, target))
  {
    hide Refines, Public, Entry, ItemOf, ElemAt;
    var item := ItemOf(target.db, st.values[k], IdAt(st.ids, k));
    PublicChanged(moved, target, item);
    PublicChanged(moved[Public(target) := item], k, item);
    PublicInjective(k, target);
    Relocated(data, moved[Public(target) := item] - {Public(k)}, st, k, target);
  }

  lemma StaysOut(data: Data, st: State, k: Key, target: Key)
    requires k in st.values && k !in st.ids
    ensures SpaceMoved(data, data, target, st.values[k], IdAt(st.ids, k))
  {
  }

  lemma SpaceMovable(data: Data, st: State, k: Key, target: Key)
    requires Refines(data, st) && k in st.ids && k in st.values && k.db != target.db
    ensures Movable(data, NamespaceOf(k.db, st.ids[k]), NamespaceOf(target.db, st.ids[k]))
  {
    hide Public, NamespaceOf, Entry, ItemOf, GoodValue;
    var id := st.ids[k];
    var from, to := NamespaceOf(k.db, id), NamespaceOf(target.db, id);
    SpacesApart(k.db, target.db, id);
    forall e | e in data ensures !(to <= e) { EntryUnder(e, target.db, id); }
    forall e | e in data && from <= e ensures data[e].expiry.None? {
      EntryUnder(e, k.db, id);
      assert Lookup(data, Entry(k.db, id, e[|from|..])) == ElemAt(st.values[k], e[|from|..]);
    }
  }

  lemma SpacesApart(db: Db, db': Db, id: Id)
    requires db != db'
    ensures Apart(NamespaceOf(db, id), NamespaceOf(db', id))
  {
    EntryInjective(db, id, [], db', id, []);
    EntryInjective(db', id, [], db, id, []);
    assert Entry(db, id, []) == NamespaceOf(db, id) && Entry(db', id, []) == NamespaceOf(db', id);
  }

  lemma SpaceTransferred(data: Data, data': Data, st: State, k: Key, target: Key)
    requires Refines(data, st) && k in st.ids && k in st.values && k.db != target.db
    requires forall e :: Transferred(data, data', NamespaceOf(k.db, st.ids[k]), NamespaceOf(target.db, st.ids[k]), e)
    ensures SpaceMoved(data, data', target, st.values[k], Some(st.ids[k]))
    ensures Clean(data') && forall l: Key :: Lookup(data', Public(l)) == Lookup(data, Public(l))
  {
    StillClean(data, data', k, target, st.ids[k]);
    hide Public, Entry, ItemOf, ElemAt, GoodValue, Clean;
    var id := st.ids[k];
    var from, to := NamespaceOf(k.db, id), NamespaceOf(target.db, id);
    forall l: Key ensures Lookup(data', Public(l)) == Lookup(data, Public(l)) {
      PublicNotEntry(l, k.db, id);
      PublicNotEntry(l, target.db, id);
      assert Transferred(data, data', from, to, Public(l));
    }
    forall db: Db, i: Id, s
      ensures Lookup(data', Entry(db, i, s)) ==
              if i == id then (if db == target.db then ElemAt(st.values[k], s) else None)
                else Lookup(data, Entry(db, i, s))
    {
      EntryInjective(db, i, s, k.db, id, s);
      EntryInjective(db, i, s, target.db, id, s);
      EntryOrigin(k.db, target.db, id, s);
      assert Transferred(data, data', from, to, Entry(db, i, s));
    }
  }

  lemma StillClean(data: Data, data': Data, k: Key, target: Key, id: Id)
    requires Clean(data)
    requires forall e :: Transferred(data, data', NamespaceOf(k.db, id), NamespaceOf(target.db, id), e)
    ensures Clean(data')
  {
    hide Known;
    forall e | e in data' ensures Known(e) {
      EntryUnder(e, target.db, id);
      assert Transferred(data, data', NamespaceOf(k.db, id), NamespaceOf(target.db, id), e);
    }
  }

  /** Deletes one key with its elements. */
  method DelOne(tx: Tx, k: Key, ghost st: State) returns (r: Result<bool, DbError>, ghost st': State)
    requires Refines(tx.data, st)
    modifies tx
    ensures Refines(tx.data, st') && st' == Without(st, k) && r == Ok(k in st.values)
    ensures k in st.ids ==> forall s :: Entry(k.db, st.ids[k], s) !in tx.data
  {
    hide Refines, Public, Entry;
    ghost var data := tx.data;
    Present(tx.data, st, k);
    Dropped(tx.data, st, k);
    st' := Without(st, k);
    IdsOfValues(tx.data, st);
    var item := tx.Get(Public(k));
    if item.None? {
      assert data - {Public(k)} == data;
      return Ok(false), st';
    }
    var cleared := ClearValue(tx, k, item.value, st);
    DelDone(data, tx.data, st, k);
    PublicChanged(tx.data, k, item.value);
    ghost var before := tx.data;
    tx.Delete(Public(k));
    assert k in st.ids ==>
      forall s :: Lookup(tx.data, Entry(k.db, st.ids[k], s)) == Lookup(before, Entry(k.db, st.ids[k], s));
    r := if cleared == Ok(()) then Ok(true) else Err(Corrupt);
  }

  /** DEL counts and deletes the keys that exist. */
  method Del(tx: Tx, keys: seq<Key>, ghost st: State) returns (r: Result<nat, DbError>, ghost st': State)
    requires Refines(tx.data, st)
    modifies tx
    ensures Refines(tx.data, st') && st'.values == st.values - SetOf(keys) && st'.used == st.used
    ensures r == Ok(|st.values.Keys * SetOf(keys)|)
  {
    hide Refines, SetOf;
    var count := 0;
    st' := st;
    NoneDeleted(st.values);
    for i := 0 to |keys|
      invariant Refines(tx.data, st') && st'.values == st.values - SetOf(keys[..i]) && st'.used == st.used
      invariant count == |st.values.Keys * SetOf(keys[..i])|
    {
      OneDeleted(st.values, keys, i);
      var one;
      one, st' := DelOne(tx, keys[i], st');
      if one == Ok(true) {
        count := count + 1;
      }
    }
    assert keys[..|keys|] == keys;
    return Ok(count), st';
  }

  lemma NoneDeleted<V>(m: map<Key, V>)
    ensures m - SetOf([]) == m && |m.Keys * SetOf([])| == 0
  {
    assert SetOf<Key>([]) == {} && m.Keys * {} == {};
  }

  lemma OneMore<K>(a: set<K>, b: set<K>, x: K)
    ensures |a * (b + {x})| == |a * b| + (if x in a && x !in b then 1 else 0)
  {
    if x in a && x !in b {
      assert a * (b + {x}) == a * b + {x};
    } else {
      assert a * (b + {x}) == a * b;
    }
  }

  lemma SetOfNext<K>(keys: seq<K>, i: nat)
    requires i < |keys|
    ensures SetOf(keys[..i + 1]) == SetOf(keys[..i]) + {keys[i]}
  {
    assert keys[..i + 1] == keys[..i] + [keys[i]];
  }

  lemma OneDeleted<K, V>(m: map<K, V>, keys: seq<K>, i: nat)
    requires i < |keys|
    ensures m - SetOf(keys[..i + 1]) == m - SetOf(keys[..i]) - {keys[i]}
    ensures |m.Keys * SetOf(keys[..i + 1])| == |m.Keys * SetOf(keys[..i])| + (if keys[i] in m - SetOf(keys[..i]) then 1
      else 0)
  {
    hide SetOf;
    SetOfNext(keys, i);
    OneMore(m.Keys, SetOf(keys[..i]), keys[i]);
  }

  lemma DelDone(data: Data, cleared: Data, st: State, k: Key)
    requires Refines(data, st) && k in st.values && PublicsKept(data, cleared, k, k)
      && SpaceDropped(data, cleared, k, IdAt(st.ids, k)) && Clean(cleared)
    ensures Refines(cleared - {Public(k)}, Without(st, k))
  {
    hide Refines, Public, Entry;
    PublicChanged(cleared, k, Item([], 0, None));
    Removed(data, cleared - {Public(k)}, st, k);
  }

  /** The store drops an expired public entry; the elements stay behind. */
  method Expire(tx: Tx, k: Key, ghost st: State) returns (ghost st': State)
    requires Refines(tx.data, st)
    modifies tx
    ensures Refines(tx.data, st') && st' == Without(st, k)
  {
    hide Refines, Public;
    Dropped(tx.data, st, k);
    tx.Delete(Public(k));
    st' := Without(st, k);
  }

  lemma Dropped(data: Data, st: State, k: Key)
    requires Refines(data, st)
    ensures Refines(data - {Public(k)}, Without(st, k))
  {
    hide Refines, Public, Entry, Clean;
    Present(data, st, k);
    if k in st.values {
      PublicChanged(data, k, Item([], 0, None));
      Removed(data, data - {Public(k)}, st, k);
    } else {
      IdsOfValues(data, st);
      assert data - {Public(k)} == data && st.values - {k} == st.values && st.ids - {k} == st.ids;
    }
  }
}
