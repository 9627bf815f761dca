/**
  Hash commands on the keyspace: what they find at a key, and the keyspace they
  leave.
 */
module TypedHashes {
  import opened ByteStrings
  import opened Store
  import opened Namespace
  import opened LinkedList
  import opened ListStore
  import opened Elements
  import opened Keyspace
  import KeyspaceRuns
  import Hash
  import opened TypedKeys

  ghost function Cells(fields: map<Bytes, Bytes>): map<Bytes, Cell> {
    assert forall f, g: Bytes :: [0] + f == [0] + g ==> ([0] + f)[1..] == f && ([0] + g)[1..] == g;
    map f | f in fields :: [0] + f := Cell(fields[f], TYPE_HASH)
  }

  ghost function HashValue(fields: map<Bytes, Bytes>, expiry: Option<int>): Value {
    Value(TYPE_HASH, BigEndian(|fields|, 4), Cells(fields), expiry)
  }

  lemma HashValueShape(fields: map<Bytes, Bytes>, expiry: Option<int>)
    requires fields != map[] && |fields| < Pow256(4)
    ensures HashShape(HashValue(fields, expiry), fields) && GoodValue(HashValue(fields, expiry))
  {
    hide BigEndian;
    var v := HashValue(fields, expiry);
    forall s ensures ElemAt(v, s) == if [0] <= s then Hash.FieldAt(fields, s[1..]) else None {
      if [0] <= s { assert s == [0] + s[1..]; }
    }
  }

  lemma FieldEntry(db: Db, id: Id, f: Bytes)
    ensures Hash.FieldKey(NamespaceOf(db, id), f) == Entry(db, id, [0] + f)
  {
  }

  /** The prefix a command finds or chooses. */
  ghost function PrefixFor(st: State, k: Key, id: Id): ElementPrefix {
    if k in st.ids then Explicit(NamespaceOf(k.db, st.ids[k]))
    else if k in st.values then Legacy(LegacyPrefix(Public(k)))
    else Explicit(NamespaceOf(k.db, id))
  }

  /** What a hash command finds; where something else is, no field is. */
  ghost function HeldBy(m: Plain, k: Key, item: Option<Item>): Hash.Held {
    if k in m && !m[k].content.FieldsOf? && item.Some? then Hash.Other(item.value, map[])
    else Hash.HashOf(FieldsAt(m, k))
  }

  lemma PrefixPlaced(st: State, k: Key, id: Id)
    ensures Namespace.Placed(Public(k), PrefixFor(st, k, id))
  {
    var i := if k in st.ids then st.ids[k] else id;
    NamespaceLength(k.db, i);
    PublicNotEntry(k, k.db, i);
    assert IsDigit(Decimal(k.db)[0]) && Public(k)[0] == Decimal(k.db)[0];
  }

  /** Nothing lies under a name-derived prefix. */
  lemma KnownStart(e: Bytes)
    requires Known(e)
    ensures e != [] && e[0] != MINUS
  {
  }

  /** Where something else than a hash is, no field is. */
  lemma ElemIsField(v: Value, t: Typed, drawn: set<NodeKey>, f: Bytes)
    requires Shape(v, t, drawn) && GoodValue(v)
    ensures ElemAt(v, [0] + f) == Hash.FieldAt(if t.content.FieldsOf? then t.content.fields else map[], f)
  {
    hide ListShape, BigEndian;
    assert ([0] + f)[1..] == f && [0] <= [0] + f;
  }

  lemma FieldsFound(data: Data, st: State, m: Plain, drawn: set<NodeKey>, k: Key, id: Id, f: Bytes)
    requires Holds(data, st, m, drawn) && (k in m || id !in st.used)
    ensures Lookup(data, Hash.FieldKey(PrefixFor(st, k, id).bytes, f)) == Hash.FieldAt(FieldsAt(m, k), f)
  {
    hide Public, Entry, NamespaceOf, Known, ItemOf, Shape, GoodValue;
    ShapeAt(data, st, m, drawn, k);
    if k in st.ids {
      FieldEntry(k.db, st.ids[k], f);
      Compound(data, st, k);
      ElemIsField(st.values[k], m[k], drawn, f);
      assert Lookup(data, Entry(k.db, st.ids[k], [0] + f)) == ElemAt(st.values[k], [0] + f);
    } else if k in st.values {
      var e := Hash.FieldKey(LegacyPrefix(Public(k)), f);
      if e in data { KnownStart(e); }
    } else {
      FieldEntry(k.db, id, f);
    }
  }

  lemma HashReady(data: Data, st: State, m: Plain, drawn: set<NodeKey>, k: Key, id: Id)
    requires Holds(data, st, m, drawn) && (k in m || id !in st.used)
    ensures Hash.Ready(data, Public(k), Explicit(NamespaceOf(k.db, id)), PrefixFor(st, k, id),
                       HeldBy(m, k, Lookup(data, Public(k))))
  {
    hide Holds, Public, NamespaceOf, ItemOf, Clean, Namespace.Placed, Hash.FieldKey, BigEndian, ListShape;
    var prefix := PrefixFor(st, k, id);
    PrefixPlaced(st, k, id);
    ShapeAt(data, st, m, drawn, k);
    assert Refines(data, st) by { HoldsRefines(data, st, m, drawn); }
    Present(data, st, k);
    assert Hash.FieldsStored(data, prefix.bytes, FieldsAt(m, k)) by {
      forall f ensures Lookup(data, Hash.FieldKey(prefix.bytes, f)) == Hash.FieldAt(FieldsAt(m, k), f) {
        FieldsFound(data, st, m, drawn, k, id, f);
      }
    }
    hide Refines;
    if k in m {
      ItemFacts(k, st.values[k], IdAt(st.ids, k));
      if m[k].content.FieldsOf? { assert HashShape(st.values[k], FieldsAt(m, k)); }
    }
  }

  /** Only the fields under one namespace differ. */
  lemma FieldFrame(data: Data, data': Data, k: Key, own: Id, db: Db, i: Id, s: Bytes)
    requires Hash.OnlyFields(data, data', Public(k), NamespaceOf(k.db, own))
    ensures (db == k.db && i == own && [0] <= s) || Lookup(data', Entry(db, i, s)) == Lookup(data, Entry(db, i, s))
  {
    hide Public;
    var ns, e := NamespaceOf(k.db, own), Entry(db, i, s);
    PublicNotEntry(k, db, i);
    EntryInjective(db, i, s, k.db, own, s);
    assert NamespaceOf(db, i) <= e && e[|NamespaceOf(db, i)|..] == s;
    if ns + [0] <= e {
      assert ns == e[..|ns|];
      assert e[|ns|] == (ns + [0])[|ns|];
    }
  }

  lemma FieldClean(data: Data, data': Data, k: Key, own: Id)
    requires Hash.OnlyFields(data, data', Public(k), NamespaceOf(k.db, own)) && Clean(data)
    ensures Clean(data') && PublicsKept(data, data', k, k)
  {
    hide Public, NamespaceOf, Known;
    var ns := NamespaceOf(k.db, own);
    forall e | e in data' ensures Known(e) {
      if e == Public(k) {
        PublicKnown(k);
      } else if ns + [0] <= e {
        assert ns == (ns + [0])[..|ns|] == e[..|ns|];
        EntryUnder(e, k.db, own);
      } else {
        assert Lookup(data', e) == Lookup(data, e);
      }
    }
    forall l: Key | l != k ensures Lookup(data', Public(l)) == Lookup(data, Public(l)) {
      PublicInjective(k, l);
      PublicNotEntry(l, k.db, own);
    }
  }

  /** The fields at a namespace after a hash command. */
  lemma FieldsAfter(data': Data, k: Key, own: Id, fields: map<Bytes, Bytes>, s: Bytes)
    requires Hash.FieldsStored(data', NamespaceOf(k.db, own), fields) && [0] <= s
    ensures Lookup(data', Entry(k.db, own, s)) == Hash.FieldAt(fields, s[1..])
  {
    assert s == [0] + s[1..];
    FieldEntry(k.db, own, s[1..]);
  }

  /** A hash that has lost its last field. */
  lemma HashRemoved(data: Data, data': Data, st: State, k: Key)
    requires Refines(data, st) && k in st.values && k in st.ids
    requires Hash.OnlyFields(data, data', Public(k), NamespaceOf(k.db, st.ids[k]))
    requires Hash.FieldsStored(data', NamespaceOf(k.db, st.ids[k]), map[]) && Public(k) !in data'
    ensures Refines(data', Keyspace.Without(st, k))
  {
    hide Refines, Public, NamespaceOf, Entry, Clean, Hash.FieldsStored, Hash.OnlyFields;
    var own := st.ids[k];
    Present(data, st, k);
    FieldClean(data, data', k, own);
    forall db: Db, i: Id, s
      ensures || Lookup(data', Entry(db, i, s)) == Lookup(data, Entry(db, i, s))
              || (own == i && db == k.db && Lookup(data', Entry(db, i, s)).None?)
    {
      FieldFrame(data, data', k, own, db, i, s);
      if db == k.db && i == own && [0] <= s { FieldsAfter(data', k, own, map[], s); }
    }
    Removed(data, data', st, k);
  }

  /** Nothing lies under a namespace that is not in use, and nothing but fields under a hash's own. */
  lemma OnlyFieldsThere(data: Data, st: State, k: Key, own: Id, s: Bytes)
    requires Refines(data, st) && !([0] <= s)
    requires if k in st.values then IdAt(st.ids, k) == Some(own) && st.values[k].kind == TYPE_HASH else own !in st.used
    ensures Entry(k.db, own, s) !in data
  {
    hide Public, Entry, ItemOf, Clean;
    if k in st.values {
      assert GoodValue(st.values[k]);
      assert Lookup(data, Entry(k.db, own, s)) == ElemAt(st.values[k], s);
    }
  }

  lemma SpaceFilled(data: Data, data': Data, st: State, k: Key, own: Id, fields: map<Bytes, Bytes>, v: Value)
    requires Refines(data, st) && HashShape(v, fields)
    requires if k in st.values then IdAt(st.ids, k) == Some(own) && st.values[k].kind == TYPE_HASH else own !in st.used
    requires Hash.OnlyFields(data, data', Public(k), NamespaceOf(k.db, own))
    requires Hash.FieldsStored(data', NamespaceOf(k.db, own), fields)
    ensures SpaceWritten(data, data', k, v, Some(own))
  {
    hide Refines, Public, NamespaceOf, Entry, BigEndian, ElemAt, Hash.FieldsStored, Hash.OnlyFields;
    forall db: Db, i: Id, s
      ensures Lookup(data', Entry(db, i, s)) ==
        if own == i && db == k.db then ElemAt(v, s) else Lookup(data, Entry(db, i, s))
    {
      FieldFrame(data, data', k, own, db, i, s);
      if db == k.db && i == own {
        if [0] <= s { FieldsAfter(data', k, own, fields, s); } else { OnlyFieldsThere(data, st, k, own, s); }
      }
    }
  }

  ghost function ExpiryIn(values: map<Key, Value>, k: Key): Option<int> {
    if k in values then values[k].expiry else None
  }

  /** The sentinel a hash command leaves. */
  lemma HashSentinel(data: Data, data': Data, st: State, k: Key, own: Id, fields: map<Bytes, Bytes>)
    requires Refines(data, st) && Hash.OnlyFields(data, data', Public(k), NamespaceOf(k.db, own))
    requires Hash.CountStored(data', Public(k), Explicit(NamespaceOf(k.db, own)), |fields|)
    ensures Lookup(data', Public(k)) == Some(ItemOf(k.db, HashValue(fields, ExpiryIn(st.values, k)), Some(own)))
  {
    hide Refines, Public, NamespaceOf, BigEndian, Clean, EncodeSentinel, Payload, PrefixOf, Cells;
    Present(data, st, k);
    if k in st.values { ItemFacts(k, st.values[k], IdAt(st.ids, k)); }
    SentinelDetermined(data'[Public(k)], BigEndian(|fields|, 4), TYPE_HASH, NamespaceOf(k.db, own),
                       LegacyPrefix(Public(k)));
  }

  /** A hash with fields is the value at its key. */
  lemma HashWritten(data: Data, data': Data, st: State, k: Key, own: Id, fields: map<Bytes, Bytes>)
    requires Refines(data, st) && fields != map[]
    requires if k in st.values then IdAt(st.ids, k) == Some(own) && st.values[k].kind == TYPE_HASH else own !in st.used
    requires Hash.OnlyFields(data, data', Public(k), NamespaceOf(k.db, own))
    requires Hash.Stored(data', Public(k), Explicit(NamespaceOf(k.db, own)), fields)
    ensures Refines(data', Assign(st, k, HashValue(fields, ExpiryIn(st.values, k)), Some(own)))
  {
    hide Refines, Public, NamespaceOf, BigEndian, Clean, Hash.FieldsStored, Hash.OnlyFields, ItemOf, HashShape;
    var v := HashValue(fields, ExpiryIn(st.values, k));
    Present(data, st, k);
    HashValueShape(fields, ExpiryIn(st.values, k));
    HashSentinel(data, data', st, k, own, fields);
    FieldClean(data, data', k, own);
    SpaceFilled(data, data', st, k, own, fields, v);
    Written(data, data', st, k, v, Some(own));
  }

  /** A hash command that finds and leaves nothing. */
  lemma HashNothing(data: Data, data': Data, st: State, k: Key, own: Id)
    requires Refines(data, st) && k !in st.values && own !in st.used
    requires Hash.OnlyFields(data, data', Public(k), NamespaceOf(k.db, own))
    requires Hash.Stored(data', Public(k), Explicit(NamespaceOf(k.db, own)), map[])
    ensures data' == data
  {
    Present(data, st, k);
    var ns := NamespaceOf(k.db, own);
    forall e ensures Lookup(data', e) == Lookup(data, e) {
      if ns + [0] <= e {
        var f := e[|ns| + 1..];
        assert e == Hash.FieldKey(ns, f);
        FieldEntry(k.db, own, f);
      }
    }
    SameLookups(data, data');
  }

  lemma SameLookups(data: Data, data': Data)
    requires forall e :: Lookup(data', e) == Lookup(data, e)
    ensures data' == data
  {
    forall e ensures (e in data' <==> e in data) && (e in data ==> data'[e] == data[e]) {
      assert Lookup(data', e) == Lookup(data, e);
    }
  }

  lemma OtherRefused(item: Item, op: Hash.Op, nums: Hash.Numbers)
    ensures Hash.ReplyTo(Hash.Other(item, map[]), op, nums) == None
  {
  }

  /** An identifier that has been drawn may stay unused. */
  lemma DrawnMore(data: Data, st: State, id: Id)
    requires Refines(data, st)
    ensures Refines(data, State(st.values, st.ids, st.used + {id}))
  {
    hide Public, Entry, ItemOf, GoodValue, ElemAt, Clean;
  }

  /** The state of the keyspace after a hash command that did not fail. */
  lemma HashAfter(data: Data, data': Data, st: State, k: Key, id: Id, fields: map<Bytes, Bytes>) returns (st': State)
    requires Refines(data, st) && id !in st.used && (k in st.values ==> st.values[k].kind == TYPE_HASH)
    requires Hash.OnlyFields(data, data', Public(k), PrefixFor(st, k, id).bytes)
    requires Hash.Stored(data', Public(k), PrefixFor(st, k, id), fields)
    ensures Refines(data', st') && st'.used == st.used + {id}
    ensures st'.values == if fields == map[] then st.values - {k}
                          else st.values[k := HashValue(fields, ExpiryIn(st.values, k))]
  {
    hide Public, NamespaceOf, Clean, Hash.FieldsStored, Hash.OnlyFields, HashValue, Hash.CountStored, ItemOf, GoodValue;
    Present(data, st, k);
    hide Refines;
    var own := if k in st.values then st.ids[k] else id;
    if fields != map[] {
      HashWritten(data, data', st, k, own, fields);
      st' := Assign(st, k, HashValue(fields, ExpiryIn(st.values, k)), Some(own));
    } else if k in st.values {
      HashRemoved(data, data', st, k);
      st' := Keyspace.Without(st, k);
    } else {
      HashNothing(data, data', st, k, own);
      st' := st;
      assert st.values - {k} == st.values;
    }
    DrawnMore(data', st', id);
    OwnUsed(data, st, k);
    st' := State(st'.values, st'.ids, st'.used + {id});
  }

  lemma HashMatches(values: map<Key, Value>, m: Plain, drawn: set<NodeKey>, k: Key, fields: map<Bytes, Bytes>)
    requires Matches(values, m, drawn) && |fields| < Pow256(4)
    ensures var values' := if fields == map[] then values - {k}
                           else values[k := HashValue(fields, ExpiryIn(values, k))];
      Matches(values', PutFields(m, k, fields), drawn)
  {
    hide HashShape, ListShape, BigEndian, GoodValue;
    if fields != map[] { HashValueShape(fields, ExpiryIn(values, k)); }
  }

  lemma HashStays(data: Data, public: Bytes, prefix: ElementPrefix, held: Hash.Held, op: Hash.Op, nums: Hash.Numbers)
    requires held.HashOf?
    ensures var after := Hash.Perform(held, op, false, nums);
      after.HashOf? && (Hash.HeldAt(data, public, prefix, after) ==> Hash.Stored(data, public, prefix, after.fields))
  {
  }

  method ExecuteHash(tx: Tx, k: Key, op: Hash.Op, id: Id, nums: Hash.Numbers, ghost st: State, ghost m: Plain,
                     ghost drawn: set<NodeKey>)
    returns (reply: Option<int>, ghost st': State)
    requires Holds(tx.data, st, m, drawn) && id !in st.used
    requires Hash.Callable(op) && |FieldsAt(m, k)| + Hash.Growth(op) < Pow256(4)
    modifies tx
    ensures Holds(tx.data, st', ApplyHash(m, k, op, nums).0, drawn) && st'.used == st.used + {id}
      && reply == ApplyHash(m, k, op, nums).1
  {
    hide Refines, Matches, Public, NamespaceOf, PrefixFor, NewNamespace;
    hide Hash.Ready, Hash.HeldAt, Hash.OnlyFields, Hash.Perform, Hash.ReplyTo, Hash.Stored;
    ghost var data, held := tx.data, HeldBy(m, k, Lookup(tx.data, Public(k)));
    ShapeAt(data, st, m, drawn, k);
    Present(data, st, k);
    HashReady(data, st, m, drawn, k, id);
    KeyspaceRuns.NewNamespaceFacts(k, id);
    var spare := NewNamespace(LegacyPrefix(Public(k)), id);
    reply := Hash.Execute(tx, Public(k), Hash.Step(op, spare.value), false, nums, PrefixFor(st, k, id), held);
    if held.Other? {
      OtherRefused(held.item, op, nums);
      DrawnMore(data, st, id);
      st' := State(st.values, st.ids, st.used + {id});
    } else {
      ghost var after := Hash.Perform(held, op, false, nums);
      HashStays(tx.data, Public(k), PrefixFor(st, k, id), held, op, nums);
      Hash.PerformSize(held, op, false, nums);
      st' := HashAfter(data, tx.data, st, k, id, after.fields);
      HashMatches(st.values, m, drawn, k, after.fields);
    }
  }
}
