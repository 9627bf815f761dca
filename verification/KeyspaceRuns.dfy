/**
  Writing values, reading them back by scanning, and whole runs of keyspace
  commands: from the empty store, what a reader finds in the store is what a
  plain map from keys to values would hold.
 */
module KeyspaceRuns {
  import opened ByteStrings
  import opened Store
  import opened Namespace
  import opened LinkedList
  import opened ListStore
  import opened Elements
  import opened Keyspace

  // ---- Reading -----------------------------------------------------------

  /** The entries of one family under a prefix, by what follows the prefix. */
  ghost function Family(data: Data, prefix: Bytes, kind: Byte): map<Bytes, Cell> {
    var suffixes := set e | e in data && prefix <= e :: e[|prefix|..];
    map s | s in suffixes && InFamily(kind, s) && prefix + s in data ::
      Cell(data[prefix + s].value, data[prefix + s].meta)
  }

  /** What a reader finds at a key: the public entry, and the elements under the prefix it names. */
  ghost function View(data: Data, k: Key): Option<Value> {
    if Public(k) !in data then None
    else
      var item := data[Public(k)];
      match (Payload(item), PrefixOf(item, LegacyPrefix(Public(k))))
      case (Ok(payload), Ok(prefix)) =>
        var kind := BaseType(item.meta);
        Some(Value(kind, payload, Family(data, prefix.bytes, kind), item.expiry))
      case _ => None
  }

  ghost function At(m: map<Key, Value>, k: Key): Option<Value> { if k in m then Some(m[k]) else None }

  lemma FamilyAt(data: Data, prefix: Bytes, kind: Byte, s: Bytes)
    ensures s in Family(data, prefix, kind) <==> InFamily(kind, s) && prefix + s in data
    ensures s in Family(data, prefix, kind) ==>
      Family(data, prefix, kind)[s] == Cell(data[prefix + s].value, data[prefix + s].meta)
  {
    if prefix + s in data {
      assert (prefix + s)[|prefix|..] == s;
    }
  }

  /** The store shows every value as it is, and nothing at other keys. */
  lemma ViewIsValue(data: Data, st: State, k: Key)
    requires Refines(data, st)
    ensures View(data, k) == At(st.values, k)
  {
    hide Refines, Public, Payload, PrefixOf, BaseType, ItemOf, Family;
    Present(data, st, k);
    if k in st.values {
      ItemFacts(k, st.values[k], IdAt(st.ids, k));
      ViewElements(data, st, k, if k in st.ids then NamespaceOf(k.db, st.ids[k]) else LegacyPrefix(Public(k)));
    }
  }

  lemma ViewElements(data: Data, st: State, k: Key, prefix: Bytes)
    requires Refines(data, st) && k in st.values && (k in st.ids ==> prefix == NamespaceOf(k.db, st.ids[k]))
    ensures Family(data, prefix, st.values[k].kind) == st.values[k].elems
  {
    hide Public, ItemOf, Family, Payload, PrefixOf, BaseType;
    var v := st.values[k];
    forall s
      ensures s in Family(data, prefix, v.kind) <==> s in v.elems
      ensures s in v.elems ==> Family(data, prefix, v.kind)[s] == v.elems[s]
    {
      FamilyAt(data, prefix, v.kind, s);
      assert k in st.ids ==> Lookup(data, Entry(k.db, st.ids[k], s)) == ElemAt(v, s);
    }
  }

  // ---- Writing -----------------------------------------------------------

  function CellItem(c: Cell): Item { Item(c.value, c.meta, None) }

  /** The entry at a suffix after some have been deleted and some written. */
  function EditAt(before: Option<Item>, sets: map<Bytes, Cell>, dels: set<Bytes>, s: Bytes): Option<Item> {
    if s in sets then Some(CellItem(sets[s])) else if s in dels then None else before
  }

  /** The entries under a prefix are edited; all others are as before. */
  ghost predicate EditedUnder(data: Data, data': Data, prefix: Bytes, sets: map<Bytes, Cell>, dels: set<Bytes>) {
    forall e :: Lookup(data', e) == if prefix <= e then EditAt(Lookup(data, e), sets, dels, e[|prefix|..])
      else Lookup(data, e)
  }

  lemma EditOne(data: Data, before: Data, after: Data, prefix: Bytes, sets: map<Bytes, Cell>, dels: set<Bytes>,
                s: Bytes)
    requires EditedUnder(data, before, prefix, sets, dels)
    ensures forall c :: after == before[prefix + s := CellItem(c)] ==>
      EditedUnder(data, after, prefix, sets[s := c], dels)
    ensures after == before - {prefix + s} && s !in sets ==> EditedUnder(data, after, prefix, sets, dels + {s})
  {
    var x := prefix + s;
    assert prefix <= x && x[|prefix|..] == s;
    forall e | prefix <= e && e[|prefix|..] == s ensures e == x { assert e == prefix + e[|prefix|..]; }
  }

  method DeleteElements(tx: Tx, prefix: Bytes, dels: set<Bytes>)
    modifies tx
    ensures EditedUnder(old(tx.data), tx.data, prefix, map[], dels)
  {
    ghost var data := tx.data;
    EditNone(data, prefix);
    hide EditedUnder;
    var todo := dels;
    ghost var done: set<Bytes> := {};
    while todo != {}
      invariant done + todo == dels && EditedUnder(data, tx.data, prefix, map[], done)
      decreases |todo|
    {
      var s :| s in todo;
      ghost var before := tx.data;
      tx.Delete(prefix + s);
      EditOne(data, before, tx.data, prefix, map[], done, s);
      done, todo := done + {s}, todo - {s};
    }
    assert done == dels;
  }

  /** Deletes some elements and writes others. */
  method EditElements(tx: Tx, prefix: Bytes, sets: map<Bytes, Cell>, dels: set<Bytes>)
    modifies tx
    ensures EditedUnder(old(tx.data), tx.data, prefix, sets, dels)
  {
    hide EditedUnder;
    ghost var data := tx.data;
    DeleteElements(tx, prefix, dels);
    var done: map<Bytes, Cell> := map[];
    var left := sets.Keys;
    while left != {}
      invariant left <= sets.Keys && done.Keys == sets.Keys - left && (forall s :: s in done ==> done[s] == sets[s])
      invariant EditedUnder(data, tx.data, prefix, done, dels)
      decreases |left|
    {
      var s :| s in left;
      ghost var before := tx.data;
      tx.Set(prefix + s, CellItem(sets[s]));
      EditOne(data, before, tx.data, prefix, done, dels, s);
      done, left := done[s := sets[s]], left - {s};
    }
    assert done == sets;
  }

  lemma EditNone(data: Data, prefix: Bytes)
    ensures EditedUnder(data, data, prefix, map[], {})
  {
  }

  /** The value at `k` after a write: a new one starts without elements. */
  function Edited(m: map<Key, Value>, k: Key, kind: Byte, payload: Bytes, sets: map<Bytes, Cell>,
                  dels: set<Bytes>): Value {
    if k in m then Value(kind, payload, (m[k].elems - dels) + sets, m[k].expiry) else Value(kind, payload, sets, None)
  }

  /** The prefix a write uses: the value's own, or a new namespace for a missing key. */
  function WritePrefix(item: Option<Item>, legacy: Bytes, id: Id): Result<ElementPrefix, DbError> {
    if item.Some? then PrefixOf(item.value, legacy) else NewNamespace(legacy, id)
  }

  /** A command that creates or extends a compound value: it edits elements and rewrites the sentinel. */
  method WriteValue(tx: Tx, k: Key, kind: Byte, payload: Bytes, sets: map<Bytes, Cell>, dels: set<Bytes>, id: Id,
                    ghost st: State)
    returns (r: Result<(), DbError>, ghost st': State)
    requires Refines(tx.data, st) && HasElements(kind)
    requires if k in st.values then st.values[k].kind == kind else id !in st.used
    requires GoodValue(Edited(st.values, k, kind, payload, sets, dels))
    modifies tx
    ensures r.Ok? && Refines(tx.data, st')
      && st'.values == st.values[k := Edited(st.values, k, kind, payload, sets, dels)]
    ensures st'.used == if k in st.values then st.used else st.used + {id}
  {
    hide Refines, Public, ItemOf, GoodValue;
    Present(tx.data, st, k);
    ghost var data, v := tx.data, Edited(st.values, k, kind, payload, sets, dels);
    ghost var own := if k in st.values then st.ids[k] else id;
    WritePrefixFacts(tx.data, st, k, id);
    match WritePrefix(tx.Get(Public(k)), LegacyPrefix(Public(k)), id)
    case Err(e) =>
      return Err(e), st;
    case Ok(prefix) =>
      EditElements(tx, prefix.bytes, sets, dels);
      SpaceEdited(data, tx.data, st, k, v, own, sets, dels);
      ghost var edited := tx.data;
      r := WriteSentinel(tx, Public(k), payload, kind, prefix);
      SentinelWritten(data, edited, tx.data, st, k, v, own);
      st' := Assign(st, k, v, Some(own));
      OwnUsed(data, st, k);
  }

  lemma WritePrefixFacts(data: Data, st: State, k: Key, id: Id)
    requires Refines(data, st) && (k in st.values ==> k in st.ids)
    ensures WritePrefix(Lookup(data, Public(k)), LegacyPrefix(Public(k)), id)
         == Ok(Explicit(NamespaceOf(k.db, if k in st.values then st.ids[k] else id)))
  {
    hide Refines, Public, ItemOf, PrefixOf, NewNamespace;
    Present(data, st, k);
    if k in st.values {
      ItemFacts(k, st.values[k], IdAt(st.ids, k));
    } else {
      NewNamespaceFacts(k, id);
    }
  }

  lemma NewNamespaceFacts(k: Key, id: Id)
    ensures NewNamespace(LegacyPrefix(Public(k)), id) == Ok(Explicit(NamespaceOf(k.db, id)))
  {
    NewNamespaceOfPublicKey(k.db, k.name, id);
  }

  lemma SpaceEdited(data: Data, data': Data, st: State, k: Key, v: Value, id: Id, sets: map<Bytes, Cell>,
                    dels: set<Bytes>)
    requires Refines(data, st) && EditedUnder(data, data', NamespaceOf(k.db, id), sets, dels)
    requires v == Edited(st.values, k, v.kind, v.payload, sets, dels)
    requires if k in st.values then k in st.ids && id == st.ids[k] else id !in st.used
    ensures SpaceWritten(data, data', k, v, Some(id))
      && Clean(data') && forall l: Key :: Lookup(data', Public(l)) == Lookup(data, Public(l))
  {
    hide Public, Entry, ItemOf, GoodValue, Known;
    var ns := NamespaceOf(k.db, id);
    forall e | e in data' ensures Known(e) {
      EntryUnder(e, k.db, id);
      assert !(ns <= e) ==> Lookup(data', e) == Lookup(data, e);
    }
    forall l: Key ensures Lookup(data', Public(l)) == Lookup(data, Public(l)) { PublicNotEntry(l, k.db, id); }
    forall db: Db, i: Id, s
      ensures Lookup(data', Entry(db, i, s)) == if i == id && db == k.db then ElemAt(v, s)
        else Lookup(data, Entry(db, i, s))
    {
      EntryInjective(db, i, s, k.db, id, s);
      if i == id && db == k.db { EntrySuffix(db, i, s); }
    }
  }

  lemma EntrySuffix(db: Db, id: Id, s: Bytes)
    ensures Entry(db, id, s)[|NamespaceOf(db, id)|..] == s
  {
  }

  lemma SentinelWritten(data: Data, edited: Data, data': Data, st: State, k: Key, v: Value, id: Id)
    requires Refines(data, st) && SpaceWritten(data, edited, k, v, Some(id)) && GoodValue(v) && HasElements(v.kind)
    requires Clean(edited) && forall l: Key :: Lookup(edited, Public(l)) == Lookup(data, Public(l))
    requires if k in st.values then IdAt(st.ids, k) == Some(id) && v.expiry == st.values[k].expiry
      else id !in st.used && v.expiry.None?
    requires data' ==
      edited[Public(k) := SentinelItem(edited, Public(k), v.payload, v.kind, Explicit(NamespaceOf(k.db, id)))]
    ensures Refines(data', Assign(st, k, v, Some(id)))
  {
    hide Refines, Public, Entry, GoodValue, ElemAt, NamespaceOf, EncodeSentinel;
    Present(data, st, k);
    ExpiryKept(k, st, v);
    var item := ItemOf(k.db, v, Some(id));
    assert Lookup(edited, Public(k)) == Lookup(data, Public(k));
    assert data' == edited[Public(k) := item];
    PublicChanged(edited, k, item);
    Written(data, data', st, k, v, Some(id));
  }

  lemma ExpiryKept(k: Key, st: State, v: Value)
    ensures k in st.values ==> ItemOf(k.db, st.values[k], IdAt(st.ids, k)).expiry == st.values[k].expiry
  {
  }

  /**
    A command that stores a value in the public entry alone, over anything: elements
    of an earlier value are left behind.
   */
  method PutPlain(tx: Tx, k: Key, kind: Byte, payload: Bytes, expiry: Option<int>, ghost st: State)
    returns (ghost st': State)
    requires Refines(tx.data, st) && !HasElements(kind) && kind < NAMESPACE_FLAG
    modifies tx
    ensures Refines(tx.data, st') && st'.values == st.values[k := Value(kind, payload, map[], expiry)]
      && st'.used == st.used
  {
    hide Refines, Public;
    ghost var v := Value(kind, payload, map[], expiry);
    PlainWritten(tx.data, st, k, v);
    tx.Set(Public(k), Item(payload, kind, expiry));
    st' := Assign(Without(st, k), k, v, None);
    assert (st.values - {k})[k := v] == st.values[k := v];
  }

  lemma PlainWritten(data: Data, st: State, k: Key, v: Value)
    requires Refines(data, st) && !HasElements(v.kind) && v.kind < NAMESPACE_FLAG && v.elems == map[]
    ensures Refines(data[Public(k) := Item(v.payload, v.kind, v.expiry)], Assign(Without(st, k), k, v, None))
  {
    assert Clean(data);
    hide Refines, Public, Entry, Clean;
    PublicChanged(data, k, Item([], 0, None));
    var free, item := data - {Public(k)}, Item(v.payload, v.kind, v.expiry);
    Dropped(data, st, k);
    IdsOfValues(data, st);
    PublicChanged(free, k, item);
    assert free[Public(k) := item] == data[Public(k) := item];
    Written(free, free[Public(k) := item], Without(st, k), k, v, None);
  }

  // ---- SET ---------------------------------------------------------------

  datatype SetMode = Always | IfMissing | IfPresent

  /** The arguments of SET; the time to live is given as the moment it ends. */
  datatype SetSpec = SetSpec(value: Bytes, expiry: Option<int>, mode: SetMode, get: bool, keepTtl: bool)

  datatype Reply = Done | Null | Number(n: nat) | Old(value: Option<Bytes>) | Refused | Panicked

  /** Whether the condition of SET is met. */
  predicate Permitted(mode: SetMode, present: bool) {
    match mode case Always => true case IfMissing => !present case IfPresent => present
  }

  /** SET with KEEPTTL of a missing key panics: there is no time to live to keep. */
  predicate SetPanics(s: SetSpec, present: bool) { s.keepTtl && !present && Permitted(s.mode, present) }

  /** SET on a plain keyspace. */
  ghost function SetIn(m: map<Key, Value>, k: Key, s: SetSpec): (map<Key, Value>, Reply) {
    if s.get && k in m && m[k].kind != TYPE_STRING then (m, Refused)
    else if SetPanics(s, k in m) then (m, Panicked)
    else
      var previous := if k in m then Some(m[k].payload) else None;
      var done := Permitted(s.mode, k in m);
      var expiry := if s.keepTtl && k in m then m[k].expiry else s.expiry;
      (if done then m[k := Value(TYPE_STRING, s.value, map[], expiry)] else m,
       if s.get then Old(previous) else if done then Done else Null)
  }

  /** SET with KEEPTTL on an empty keyspace. */
  lemma KeepTtlPanics(k: Key, value: Bytes)
    ensures SetIn(map[], k, SetSpec(value, None, Always, false, true)) == (map[], Panicked)
  {
  }

  /** The public entry of a live key, as SET looks at it. */
  lemma EntryKind(data: Data, st: State, k: Key)
    requires Refines(data, st)
    ensures Public(k) in data <==> k in st.values
    ensures k in st.values ==>
      var (item, v) := (data[Public(k)], st.values[k]);
      && item.expiry == v.expiry && (item.meta == TYPE_STRING <==> v.kind == TYPE_STRING)
      && (v.kind == TYPE_STRING ==> item.value == v.payload)
  {
    hide Public;
    Present(data, st, k);
    if k in st.values {
      ItemFacts(k, st.values[k], IdAt(st.ids, k));
    }
  }

  /** SET: what the condition, the old type and the time to live make of it. */
  method SetString(tx: Tx, k: Key, s: SetSpec, ghost st: State) returns (reply: Reply, ghost st': State)
    requires Refines(tx.data, st)
    modifies tx
    ensures Refines(tx.data, st') && (st'.values, reply) == SetIn(st.values, k, s) && st'.used == st.used
    ensures reply.Panicked? <==> SetPanics(s, k in st.values)
    ensures reply.Refused? || reply.Panicked? || !Permitted(s.mode, k in st.values) ==> tx.data == old(tx.data)
    ensures var expiry := if s.keepTtl && k in st.values then st.values[k].expiry else s.expiry;
      var written := st.values[k := Value(TYPE_STRING, s.value, map[], expiry)];
      !reply.Refused? && !reply.Panicked? ==>
        && (s.mode.Always? ==> st'.values == written)
        && (s.mode.IfMissing? ==> st'.values == if k in st.values then st.values else written)
        && (s.mode.IfPresent? ==> st'.values == if k in st.values then written else st.values)
  {
    EntryKind(tx.data, st, k);
    hide Refines, Public;
    var item := tx.Get(Public(k));
    if s.get && item.Some? && item.value.meta != TYPE_STRING {
      return Refused, st;
    }
    var done := Permitted(s.mode, item.Some?);
    var previous := if item.Some? then Some(item.value.value) else None;
    st' := st;
    if done {
      if s.keepTtl && item.None? {
        return Panicked, st;
      }
      st' := PutPlain(tx, k, TYPE_STRING, s.value, if s.keepTtl then item.value.expiry else s.expiry, st);
    }
    reply := if s.get then Old(previous) else if done then Done else Null;
  }

  // ---- Runs --------------------------------------------------------------

  datatype Op =
    | Write(k: Key, kind: Byte, payload: Bytes, sets: map<Bytes, Cell>, dels: set<Bytes>, id: Id)
    | Put(k: Key, kind: Byte, payload: Bytes, expiry: Option<int>)
    | Set(k: Key, spec: SetSpec)
    | RenameOp(k: Key, to: Key)
    | RenameNxOp(k: Key, to: Key)
    | MoveOp(k: Key, db: Db)
    | DelOp(keys: seq<Key>)
    | ExpireOp(k: Key)

  /** The commands that only arrange values, whatever they are. */
  type Arrangement = op: Op | op.RenameOp? || op.RenameNxOp? || op.MoveOp? || op.DelOp? || op.ExpireOp?
    witness DelOp([])

  /** RENAME and MOVE carry values whole, DEL and expiry take them away. */
  ghost function Arrange<T>(m: map<Key, T>, op: Arrangement): (map<Key, T>, Reply) {
    match op
    case RenameOp(k, to) => (RenameIn(m, k, to), if k in m then Done else Null)
    case RenameNxOp(k, to) =>
      if to in m then (m, Number(0)) else (RenameIn(m, k, to), if k in m then Number(1) else Null)
    case MoveOp(k, db) =>
      if k.db == db then (m, Refused)
      else if Moves(m, k, db) then (Renamed(m, k, Key(db, k.name)), Number(1)) else (m, Number(0))
    case DelOp(keys) => (m - SetOf(keys), Number(|m.Keys * SetOf(keys)|))
    case ExpireOp(k) => (m - {k}, Done)
  }

  /** The value at `k` is at `to` instead, whatever was there; every other key is as before. */
  ghost predicate Carried<T>(m: map<Key, T>, m': map<Key, T>, k: Key, to: Key) {
    && k in m && k !in m' && to in m' && m'[to] == m[k]
    && forall l :: l != k && l != to ==> (l in m' <==> l in m) && (l in m ==> m'[l] == m[l])
  }

  lemma CarriedBy<T>(m: map<Key, T>, k: Key, to: Key)
    ensures k in m && k != to ==> Carried(m, RenameIn(m, k, to), k, to) && Carried(m, Renamed(m, k, to), k, to)
  {
  }

  /** What RENAME and RENAMENX do, and when, key by key. */
  lemma RenameExact<T>(m: map<Key, T>, k: Key, to: Key)
    ensures var (m', r) := Arrange(m, RenameOp(k, to));
      if k !in m then m' == m && r == Null
      else r == Done && if k == to then m' == m else Carried(m, m', k, to)
    ensures var (m', r) := Arrange(m, RenameNxOp(k, to));
      if to in m then m' == m && r == Number(0)
      else if k !in m then m' == m && r == Null
      else Carried(m, m', k, to) && r == Number(1)
  {
    CarriedBy(m, k, to);
    hide Carried;
  }

  /** What MOVE does, and when. */
  lemma MoveExact<T>(m: map<Key, T>, k: Key, db: Db)
    ensures var (m', r) := Arrange(m, MoveOp(k, db));
      if k.db == db then m' == m && r == Refused
      else if k !in m || Key(db, k.name) in m then m' == m && r == Number(0)
      else Carried(m, m', k, Key(db, k.name)) && r == Number(1)
  {
    CarriedBy(m, k, Key(db, k.name));
    hide Carried, Renamed;
  }

  /** What DEL and expiry do. */
  lemma DelExact<T>(m: map<Key, T>, keys: seq<Key>, k: Key)
    ensures var (m', r) := Arrange(m, DelOp(keys));
      && (forall l :: (l in m' <==> l in m && l !in keys) && (l in m' ==> m'[l] == m[l]))
      && r == Number(|set l | l in m && l in keys|)
    ensures var (m', r) := Arrange(m, ExpireOp(k));
      k !in m' && r == Done && forall l :: l != k ==> (l in m' <==> l in m) && (l in m ==> m'[l] == m[l])
  {
    assert m.Keys * SetOf(keys) == set l | l in m && l in keys;
  }

  /** The plain keyspace: commands arrange values, a write touches the value at its key. */
  ghost function Apply(m: map<Key, Value>, op: Op): (map<Key, Value>, Reply) {
    match op
    case Write(k, kind, payload, sets, dels, _) => (m[k := Edited(m, k, kind, payload, sets, dels)], Done)
    case Put(k, kind, payload, expiry) => (m[k := Value(kind, payload, map[], expiry)], Done)
    case Set(k, spec) => SetIn(m, k, spec)
    case _ => Arrange(m, op)
  }

  /**
    What a command respects: one database for RENAME, the type of the value it
    extends, an unused identifier for one it creates.
   */
  ghost predicate Allowed(m: map<Key, Value>, used: set<Id>, op: Op) {
    match op
    case Write(k, kind, payload, sets, dels, id) =>
      && HasElements(kind) && (if k in m then m[k].kind == kind else id !in used)
      && GoodValue(Edited(m, k, kind, payload, sets, dels))
    case Put(k, kind, _, _) => !HasElements(kind) && kind < NAMESPACE_FLAG
    case RenameOp(k, to) => k.db == to.db
    case RenameNxOp(k, to) => k.db == to.db
    case _ => true
  }

  ghost function UsedAfter(m: map<Key, Value>, used: set<Id>, op: Op): set<Id> {
    if op.Write? && op.k !in m then used + {op.id} else used
  }

  method Execute(tx: Tx, op: Op, ghost st: State) returns (reply: Reply, ghost st': State)
    requires Refines(tx.data, st) && Allowed(st.values, st.used, op)
    modifies tx
    ensures Refines(tx.data, st') && (st'.values, reply) == Apply(st.values, op)
      && st'.used == UsedAfter(st.values, st.used, op)
  {
    hide Refines, GoodValue, Edited, RenameIn, Renamed, SetIn;
    match op
    case Write(k, kind, payload, sets, dels, id) =>
      var r;
      r, st' := WriteValue(tx, k, kind, payload, sets, dels, id, st);
      reply := Done;
    case Put(k, kind, payload, expiry) =>
      st' := PutPlain(tx, k, kind, payload, expiry, st);
      reply := Done;
    case Set(k, spec) => reply, st' := SetString(tx, k, spec, st);
    case RenameOp(k, to) =>
      var r;
      r, st' := Rename(tx, k, to, st);
      reply := if r == Ok(true) then Done else Null;
    case RenameNxOp(k, to) =>
      var r;
      r, st' := RenameNx(tx, k, to, st);
      reply := match r case Ok(Some(n)) => Number(n) case _ => Null;
    case MoveOp(k, db) =>
      var r;
      r, st' := Move(tx, k, db, st);
      reply := match r case Ok(n) => Number(n) case Err(_) => Refused;
    case DelOp(keys) =>
      var r;
      r, st' := Del(tx, keys, st);
      reply := match r case Ok(n) => Number(n) case Err(_) => Refused;
    case ExpireOp(k) =>
      st' := Expire(tx, k, st);
      reply := Done;
  }

  ghost predicate AllowedRun(m: map<Key, Value>, used: set<Id>, ops: seq<Op>)
    decreases |ops|
  {
    ops == [] || (Allowed(m, used, ops[0]) && AllowedRun(Apply(m, ops[0]).0, UsedAfter(m, used, ops[0]), ops[1..]))
  }

  ghost function ApplyAll(m: map<Key, Value>, ops: seq<Op>): (map<Key, Value>, seq<Reply>)
    decreases |ops|
  {
    if ops == [] then (m, [])
    else
      var (m1, reply) := Apply(m, ops[0]);
      var (m2, replies) := ApplyAll(m1, ops[1..]);
      (m2, [reply] + replies)
  }

  method RunFrom(tx: Tx, ops: seq<Op>, ghost st: State) returns (replies: seq<Reply>, ghost st': State)
    requires Refines(tx.data, st) && AllowedRun(st.values, st.used, ops)
    modifies tx
    ensures Refines(tx.data, st') && (st'.values, replies) == ApplyAll(st.values, ops)
    decreases |ops|
  {
    hide Refines, Allowed, Apply;
    if ops == [] {
      return [], st;
    }
    var reply; ghost var st1;
    reply, st1 := Execute(tx, ops[0], st);
    replies, st' := RunFrom(tx, ops[1..], st1);
    replies := [reply] + replies;
  }

  /**
    Every run from the empty store: the replies are those of the plain
    keyspace, every reader sees exactly the plain keyspace's values, and no two
    live keys share a namespace.
   */
  method Run(tx: Tx, ops: seq<Op>) returns (replies: seq<Reply>, ghost st': State)
    requires tx.data == map[] && AllowedRun(map[], {}, ops)
    modifies tx
    ensures var (m, expected) := ApplyAll(map[], ops);
      replies == expected && forall k: Key :: View(tx.data, k) == At(m, k)
    ensures Refines(tx.data, st') && OwnSpaces(st')
  {
    ghost var st := State(map[], map[], {});
    assert Refines(tx.data, st);
    hide AllowedRun, ApplyAll, View;
    replies, st' := RunFrom(tx, ops, st);
    forall k: Key ensures View(tx.data, k) == At(st'.values, k) { ViewIsValue(tx.data, st', k); }
  }
}
