/**
  List commands on the keyspace: the store seen as its lists among other
  entries, and the keyspace that the lists after a command make.
 */
module TypedLists {
  import opened ByteStrings
  import opened Store
  import opened Namespace
  import opened LinkedList
  import opened ListStore
  import opened Elements
  import opened Keyspace
  import KeyspaceRuns
  import ListRuns
  import opened TypedKeys

  // ---- Lists in the keyspace ---------------------------------------------

  /** The same map over storage keys. */
  ghost function Image<T>(m: map<Key, T>): map<Bytes, T> {
    assert forall k: Key, l: Key :: Public(k) == Public(l) ==> k == l by {
      forall k: Key, l: Key ensures Public(k) == Public(l) ==> k == l { PublicInjective(k, l); }
    }
    map k | k in m :: Public(k) := m[k]
  }

  lemma ImageFacts<T>(m: map<Key, T>)
    ensures forall k: Key :: (Public(k) in Image(m) <==> k in m) && (k in m ==> Image(m)[Public(k)] == m[k])
    ensures forall p :: p in Image(m) ==> exists k: Key :: k in m && p == Public(k)
  {
    hide Public;
    forall k: Key, l: Key ensures Public(k) == Public(l) ==> k == l { PublicInjective(k, l); }
  }

  lemma SameMaps<K, V>(a: map<K, V>, b: map<K, V>)
    requires forall k :: (k in a <==> k in b) && (k in a ==> a[k] == b[k])
    ensures a == b
  {
  }

  lemma PutImage(m: ListRuns.Plain<Key>, k: Key, v: seq<Bytes>)
    ensures ListRuns.Put(Image(m), Public(k), v) == Image(ListRuns.Put(m, k, v))
    ensures ListRuns.At(Image(m), Public(k)) == ListRuns.At(m, k)
  {
    hide Public, Image;
    ImageFacts(m);
    ImageFacts(ListRuns.Put(m, k, v));
    forall l: Key ensures Public(k) == Public(l) ==> k == l { PublicInjective(k, l); }
    SameMaps(ListRuns.Put(Image(m), Public(k), v), Image(ListRuns.Put(m, k, v)));
  }

  function OnPublic(c: ListRuns.Command<Key>): ListRuns.Command<Bytes> {
    match c
    case PushTo(k, values, atTail, onlyIfExists) => ListRuns.PushTo(Public(k), values, atTail, onlyIfExists)
    case PopFrom(k, fromTail) => ListRuns.PopFrom(Public(k), fromTail)
    case RemoveFrom(k, count, value) => ListRuns.RemoveFrom(Public(k), count, value)
    case TrimList(k, start, stop) => ListRuns.TrimList(Public(k), start, stop)
    case InsertInto(k, before, pivot, value) => ListRuns.InsertInto(Public(k), before, pivot, value)
    case SetElement(k, index, value) => ListRuns.SetElement(Public(k), index, value)
    case Rotate(src, k) => ListRuns.Rotate(Public(src), Public(k))
  }

  lemma RotateImage(m: ListRuns.Plain<Key>, foreign: set<Key>, taken: set<Bytes>, src: Key, k: Key)
    requires forall l: Key :: l in foreign <==> Public(l) in taken
    ensures var (m', reply) := ListRuns.PerformOne(m, foreign, ListRuns.Rotate(src, k), false);
      ListRuns.PerformOne(Image(m), taken, ListRuns.Rotate(Public(src), Public(k)), false) == (Image(m'), reply)
  {
    hide Public, Image, ListRuns.Put, ListRuns.At;
    var from := ListRuns.At(m, src);
    PutImage(m, src, []);
    if from != [] {
      var left := ListRuns.Put(m, src, from[..|from| - 1]);
      PutImage(m, src, from[..|from| - 1]);
      PutImage(left, k, [from[|from| - 1]] + ListRuns.At(left, k));
    }
  }

  /** A command does the same over keys and over storage keys. */
  lemma PerformImage(m: ListRuns.Plain<Key>, foreign: set<Key>, taken: set<Bytes>, c: ListRuns.Command<Key>)
    requires forall k: Key :: k in foreign <==> Public(k) in taken
    ensures var (m', reply) := ListRuns.PerformOne(m, foreign, c, false);
      ListRuns.PerformOne(Image(m), taken, OnPublic(c), false) == (Image(m'), reply)
  {
    hide Public, Image, ListRuns.Put, ListRuns.At, Remaining, Trimmed, InsertNear, Reverse, Popped;
    var s := ListRuns.At(m, c.key);
    PutImage(m, c.key, []);
    match c
    case PushTo(k, values, atTail, _) => PutImage(m, k, if atTail then s + values else Reverse(values) + s);
    case PopFrom(k, fromTail) => PutImage(m, k, Popped(s, fromTail));
    case RemoveFrom(k, count, value) => PutImage(m, k, Remaining(s, count, value));
    case TrimList(k, start, stop) => PutImage(m, k, Trimmed(s, start, stop));
    case InsertInto(k, before, pivot, value) => PutImage(m, k, InsertNear(s, before, pivot, value));
    case SetElement(k, index, value) =>
      var i := if index < 0 then index + |s| else index;
      if 0 <= i < |s| { PutImage(m, k, s[i := value]); }
    case Rotate(src, k) => RotateImage(m, foreign, taken, src, k);
  }

  lemma PublicIsPublic(k: Key)
    ensures IsPublic(Public(k))
  {
    var p := Public(k);
    assert Pow10(10) == 10000000000 by { assert Pow10(5) == 100000; assert Pow10(10) == 100000 * Pow10(5); }
    DecimalLength(k.db, 10, 10000000000);
    FindColonAt(p, |Decimal(k.db)|);
    assert p[..|Decimal(k.db)|] == Decimal(k.db);
  }

  lemma SpaceIsPrivate(db: Db, id: Id)
    ensures IsPrivate(NamespaceOf(db, id)) && NamespaceOf(db, id)[0] == PLUS
  {
    NamespaceLength(db, id);
  }

  lemma NodeIsEntry(db: Db, id: Id, k: NodeKey)
    ensures NodeEntry(NamespaceOf(db, id), k) == Entry(db, id, [COLON] + k)
  {
  }

  lemma SentinelThere(data: Data, k: Key, v: Value, id: Id, c: Chain)
    requires HoldsAt(data, k, v, id) && v.kind == TYPE_LIST && ListShape(v, c.keys, c.vals)
    requires c.prefix == Explicit(NamespaceOf(k.db, id)) && c.expiry == v.expiry
    ensures SentinelStored(data, Public(k), c)
  {
    hide Public, NamespaceOf, ItemOf, SentinelPayload, GoodKeys, ElemAt, Entry;
    ItemFacts(k, v, Some(id));
  }

  lemma NodeThere(data: Data, k: Key, v: Value, id: Id, l: NodeKey)
    requires HoldsAt(data, k, v, id)
    ensures Lookup(data, NodeEntry(NamespaceOf(k.db, id), l)) == ElemAt(v, [COLON] + l)
  {
    hide Public, NamespaceOf, ItemOf, ElemAt, Entry;
    NodeIsEntry(k.db, id, l);
    assert Lookup(data, Entry(k.db, id, [COLON] + l)) == ElemAt(v, [COLON] + l);
  }

  /** The list at a key, as the list commands see it. */
  lemma ListThere(data: Data, st: State, k: Key, keys: seq<NodeKey>, vals: seq<Bytes>)
    requires Refines(data, st) && k in st.ids && k in st.values && st.values[k].kind == TYPE_LIST
    requires ListShape(st.values[k], keys, vals)
    ensures ListStored(data, Public(k), Chain(Explicit(NamespaceOf(k.db, st.ids[k])), keys, vals, st.values[k].expiry))
  {
    hide Refines, Public, NamespaceOf, HoldsAt, SentinelStored, EncodeNode, SentinelPayload, GoodKeys;
    hide IsPublic, IsPrivate;
    var v, id := st.values[k], st.ids[k];
    var c := Chain(Explicit(NamespaceOf(k.db, id)), keys, vals, v.expiry);
    PublicIsPublic(k);
    SpaceIsPrivate(k.db, id);
    Compound(data, st, k);
    SentinelThere(data, k, v, id, c);
    forall l: NodeKey ensures Lookup(data, NodeEntry(c.prefix.bytes, l)) == ElemAt(v, [COLON] + l) {
      NodeThere(data, k, v, id, l);
    }
    assert forall i :: 0 <= i < |keys| ==> NodeStored(data, c.prefix.bytes, keys, vals, i);
  }

  predicate IsList(m: Plain, k: Key) { k in m && m[k].content.ListOf? }

  /** The list at a key has the key's namespace, contents and expiry. */
  ghost predicate ChainOf(c: Chain, st: State, m: Plain, drawn: set<NodeKey>, k: Key) {
    && IsList(m, k) && k in st.ids && c.prefix == Explicit(NamespaceOf(k.db, st.ids[k]))
    && c.vals == m[k].content.vals && c.expiry == m[k].expiry && SetOf(c.keys) <= drawn
  }

  /** The lists are those of the keyspace. */
  ghost predicate ListsOf(lists: Lists, st: State, m: Plain, drawn: set<NodeKey>) {
    && (forall k: Key :: Public(k) in lists <==> IsList(m, k))
    && (forall p :: p in lists ==> exists k: Key :: p == Public(k))
    && (forall k: Key :: IsList(m, k) ==> ChainOf(lists[Public(k)], st, m, drawn, k))
  }

  lemma ListAt(data: Data, st: State, m: Plain, drawn: set<NodeKey>, k: Key) returns (c: Chain)
    requires Holds(data, st, m, drawn) && IsList(m, k)
    ensures ListStored(data, Public(k), c) && ChainOf(c, st, m, drawn, k)
  {
    hide Refines, ListShape, HashShape, ListStored, Public, NamespaceOf;
    ShapeAt(data, st, m, drawn, k);
    Present(data, st, k);
    var keys :| ListShape(st.values[k], keys, m[k].content.vals) && SetOf(keys) <= drawn;
    ListThere(data, st, k, keys, m[k].content.vals);
    c := Chain(Explicit(NamespaceOf(k.db, st.ids[k])), keys, m[k].content.vals, m[k].expiry);
  }

  ghost function ChainFor(data: Data, st: State, m: Plain, drawn: set<NodeKey>, k: Key): (c: Chain)
    requires Holds(data, st, m, drawn) && IsList(m, k)
    ensures ListStored(data, Public(k), c) && ChainOf(c, st, m, drawn, k)
  {
    assert exists c :: ListStored(data, Public(k), c) && ChainOf(c, st, m, drawn, k) by {
      var c := ListAt(data, st, m, drawn, k);
    }
    var c :| ListStored(data, Public(k), c) && ChainOf(c, st, m, drawn, k);
    c
  }

  /** Everything that is neither a list's sentinel nor one of its nodes. */
  ghost function Rest(data: Data, lists: Lists): Data {
    map e | e in data && e !in lists && !Owned(lists, e) :: data[e]
  }

  /** The store seen as lists and other entries. */
  lemma LayOut(data: Data, st: State, m: Plain, drawn: set<NodeKey>) returns (lists: Lists, others: Data)
    requires Holds(data, st, m, drawn)
    ensures World(data, lists, others) && ListsOf(lists, st, m, drawn) && ListRuns.Agree(lists, Image(ListsIn(m)))
    ensures forall k: Key :: Public(k) in others <==> k in OthersIn(m)
  {
    hide Holds, Public, Image, ListStored, NamespaceOf, IsPublic, OthersKept, NothingElse, OwnPrefixes, Owned, Rest;
    var chains := map k | k in ListsIn(m) :: ChainFor(data, st, m, drawn, k);
    lists := Image(chains);
    ImageFacts(chains);
    ImageFacts(ListsIn(m));
    others := Rest(data, lists);
    forall k | IsList(m, k) ensures ListStored(data, Public(k), lists[Public(k)]) {
      assert lists[Public(k)] == ChainFor(data, st, m, drawn, k);
    }
    OthersLaid(data, st, m, drawn, lists);
    ListsApart(data, st, m, drawn, lists);
    LaidAgree(data, st, m, drawn, lists);
  }

  lemma LaidAgree(data: Data, st: State, m: Plain, drawn: set<NodeKey>, lists: Lists)
    requires AllStored(data, lists) && ListsOf(lists, st, m, drawn)
    ensures ListRuns.Agree(lists, Image(ListsIn(m)))
  {
    hide Public, Image, NamespaceOf, IsPublic, IsPrivate, Stored;
    ImageFacts(ListsIn(m));
    forall p | p in lists ensures lists[p].vals != [] {
      assert ListStored(data, p, lists[p]);
      StoredNonEmpty(data, p, lists[p]);
    }
  }

  lemma StoredNonEmpty(data: Data, p: Bytes, c: Chain)
    requires Stored(data, p, c)
    ensures c.vals != []
  {
  }

  lemma NotOwned(st: State, m: Plain, drawn: set<NodeKey>, lists: Lists, k: Key)
    requires ListsOf(lists, st, m, drawn)
    ensures !Owned(lists, Public(k))
  {
    hide Public, NamespaceOf, IsPublic, IsPrivate;
    if p :| p in lists && IsNodeEntry(lists[p].prefix.bytes, Public(k)) {
      var l: Key :| p == Public(l);
      PublicIsPublic(k);
      SpaceIsPrivate(l.db, st.ids[l]);
      PublicIsNoNode(Public(k), lists[p].prefix.bytes);
    }
  }

  lemma EntryIsNoPublic(db: Db, id: Id, s: Bytes)
    ensures !IsPublic(Entry(db, id, s))
  {
    var e := Entry(db, id, s);
    assert e[0] == PLUS;
    if 0 < FindColon(e) { assert e[..FindColon(e)][0] == PLUS; }
  }

  lemma OthersLaid(data: Data, st: State, m: Plain, drawn: set<NodeKey>, lists: Lists)
    requires Holds(data, st, m, drawn) && ListsOf(lists, st, m, drawn)
    ensures OthersKept(data, lists, Rest(data, lists)) && NothingElse(data, lists, Rest(data, lists))
    ensures forall k: Key :: Public(k) in Rest(data, lists) <==> k in OthersIn(m)
  {
    hide Holds, Refines, Public, NamespaceOf, IsPublic, Owned, Entry, Shape;
    assert Refines(data, st) by { HoldsRefines(data, st, m, drawn); }
    forall k: Key ensures Public(k) in Rest(data, lists) <==> k in OthersIn(m) {
      ShapeAt(data, st, m, drawn, k);
      Present(data, st, k);
      NotOwned(st, m, drawn, lists, k);
    }
    forall e | e in data && IsPublic(e) && BaseType(data[e].meta) == TYPE_LIST ensures e in lists {
      ListIsLaid(data, st, m, drawn, lists, e);
    }
  }

  lemma ListIsLaid(data: Data, st: State, m: Plain, drawn: set<NodeKey>, lists: Lists, e: Bytes)
    requires Holds(data, st, m, drawn) && ListsOf(lists, st, m, drawn)
    requires e in data && IsPublic(e) && BaseType(data[e].meta) == TYPE_LIST
    ensures e in lists
  {
    hide Public, NamespaceOf, IsPublic, Entry, ListShape, HashShape, ItemOf;
    assert Known(e);
    if k: Key :| e == Public(k) {
      ShapeAt(data, st, m, drawn, k);
      Present(data, st, k);
      ItemFacts(k, st.values[k], IdAt(st.ids, k));
    } else {
      var db: Db, id: Id, s :| e == Entry(db, id, s);
      EntryIsNoPublic(db, id, s);
    }
  }

  lemma ListsApart(data: Data, st: State, m: Plain, drawn: set<NodeKey>, lists: Lists)
    requires Holds(data, st, m, drawn) && ListsOf(lists, st, m, drawn)
    ensures OwnPrefixes(lists)
  {
    hide Public, NamespaceOf, Matches, Clean, ValuesStored, OnlyValues, ElementsStored, SpacesKnown;
    forall p, q | p in lists && q in lists && p != q ensures lists[p].prefix.bytes != lists[q].prefix.bytes {
      var k: Key :| p == Public(k);
      var l: Key :| q == Public(l);
      assert IsList(m, k) && IsList(m, l);
      EntryInjective(k.db, st.ids[k], [], l.db, st.ids[l], []);
    }
  }

  /** The names a list command draws are new. */
  ghost predicate Fresh(c: ListRuns.Command<Key>, keys: seq<NodeKey>, id: Id, used: set<Id>, drawn: set<NodeKey>) {
    && |keys| == ListRuns.Growth(c) && Distinct(keys) && NO_LINK !in keys && SetOf(keys) !! drawn && id !in used
    && (c.PushTo? ==> c.values != [])
  }

  ghost function NamesOf(lists: Lists, drawn: set<NodeKey>): ListRuns.Names {
    ListRuns.Names(drawn, set p | p in lists :: (p, lists[p].prefix.bytes))
  }

  lemma FreshSpace(k: Key, id: Id)
    ensures FreshNamespace(Public(k), id) == NamespaceOf(k.db, id)
  {
    hide Public, NewNamespace;
    PublicIsPublic(k);
    FreshNamespaceIsNew(Public(k), id);
    KeyspaceRuns.NewNamespaceFacts(k, id);
  }

  lemma NoneUnder(data: Data, st: State, db: Db, id: Id, e: Bytes)
    requires Refines(data, st) && id !in st.used && e in data
    ensures !(NamespaceOf(db, id) <= e)
  {
    hide Public, ItemOf, ElemAt, GoodValue, Clean;
    EntryUnder(e, db, id);
  }

  lemma StepIsFresh(data: Data, st: State, m: Plain, drawn: set<NodeKey>, lists: Lists, others: Data,
                    c: ListRuns.Command<Key>, keys: seq<NodeKey>, id: Id)
    requires Refines(data, st) && World(data, lists, others) && ListsOf(lists, st, m, drawn)
    requires Fresh(c, keys, id, st.used, drawn)
    ensures ListRuns.FreshStep(NamesOf(lists, drawn), others, ListRuns.Step(OnPublic(c), keys, id))
    ensures ListRuns.Covers(NamesOf(lists, drawn), lists)
  {
    hide Refines, Public, NamespaceOf, FreshNamespace, AllStored, OwnPrefixes, NothingElse, IsPublic;
    var ns := NamespaceOf(c.key.db, id);
    FreshSpace(c.key, id);
    PublicIsPublic(c.key);
    if c.Rotate? { PublicIsPublic(c.src); }
    forall p | p in lists ensures lists[p].prefix.bytes != ns && SetOf(lists[p].keys) <= drawn {
      var k: Key :| p == Public(k);
      assert ChainOf(lists[Public(k)], st, m, drawn, k);
      OwnUsed(data, st, k);
      EntryInjective(k.db, st.ids[k], [], c.key.db, id, []);
    }
    forall e | e in others ensures !IsNodeEntry(ns, e) {
      NoneUnder(data, st, c.key.db, id, e);
      assert IsNodeEntry(ns, e) ==> ns <= ns + [COLON] <= e;
    }
  }

  // ---- The keyspace after a list command ---------------------------------

  ghost function NewId(st: State, k: Key, prefix: Bytes, id: Id): Id {
    if k in st.ids && prefix == NamespaceOf(k.db, st.ids[k]) then st.ids[k] else id
  }

  /** A stored list as a value of the keyspace. */
  ghost function ListValue(data: Data, c: Chain): Value {
    Value(TYPE_LIST, SentinelPayload(|c.keys|, First(c.keys), Last(c.keys)),
          KeyspaceRuns.Family(data, c.prefix.bytes, TYPE_LIST), c.expiry)
  }

  /** The list at a key is the old one, or the one at `key` under the new identifier. */
  ghost predicate OldOrNew(st: State, m: Plain, k: Key, i: Id, key: Key, id: Id) {
    (IsList(m, k) && k in st.ids && i == st.ids[k]) || (k == key && i == id)
  }

  /** Everything but lists stays; a list stays where it is, or the one at `key` is new under the identifier `id`. */
  ghost predicate Follows(st: State, st': State, m: Plain, m': Plain, key: Key, id: Id) {
    && st'.used == st.used + {id}
    && (forall k :: k in st'.values <==> k in m')
    && (forall k :: k in m' && !IsList(m', k) ==>
          && k in m && m'[k] == m[k] && k in st.values && st'.values[k] == st.values[k]
          && IdAt(st'.ids, k) == IdAt(st.ids, k))
    && (forall k :: k in m && !IsList(m, k) ==> k in m' && !IsList(m', k))
    && (forall k :: IsList(m', k) ==>
          k in st'.ids && OldOrNew(st, m, k, st'.ids[k], key, id))
    && (forall k :: k in st'.ids ==> k in m')
  }

  lemma EntryNotListed(lists: Lists, st: State, m: Plain, drawn: set<NodeKey>, db: Db, i: Id, s: Bytes)
    requires ListsOf(lists, st, m, drawn)
    ensures Entry(db, i, s) !in lists
  {
    hide Public, ChainOf;
    if Entry(db, i, s) in lists {
      var k: Key :| Entry(db, i, s) == Public(k);
      PublicNotEntry(k, db, i);
    }
  }

  /** A node below a namespace belongs to the list that has the namespace. */
  lemma OwnerOf(lists: Lists, st: State, m: Plain, drawn: set<NodeKey>, db: Db, i: Id, s: Bytes) returns (k: Key)
    requires ListsOf(lists, st, m, drawn) && Owned(lists, Entry(db, i, s))
    ensures IsList(m, k) && k in st.ids && k.db == db && st.ids[k] == i && InFamily(TYPE_LIST, s)
  {
    hide Public, NamespaceOf, Entry;
    var e := Entry(db, i, s);
    var p :| p in lists && IsNodeEntry(lists[p].prefix.bytes, e);
    k :| p == Public(k);
    assert ChainOf(lists[p], st, m, drawn, k);
    var ns := NamespaceOf(k.db, st.ids[k]);
    assert ns <= ns + [COLON] <= e;
    EntryInjective(db, i, s, k.db, st.ids[k], s);
    NodeFamily(ns, e);
    KeyspaceRuns.EntrySuffix(db, i, s);
  }

  /** The store and what it holds, at one moment. */
  datatype Scene = Scene(data: Data, st: State, m: Plain, drawn: set<NodeKey>, lists: Lists)

  ghost predicate InScene(a: Scene, others: Data) {
    World(a.data, a.lists, others) && ListsOf(a.lists, a.st, a.m, a.drawn)
  }

  /** One list command leads from `a` to `b`. */
  ghost predicate Leads(a: Scene, b: Scene, others: Data, key: Key, id: Id) {
    && Holds(a.data, a.st, a.m, a.drawn) && id !in a.st.used && InScene(a, others) && InScene(b, others)
    && Follows(a.st, b.st, a.m, b.m, key, id)
    && forall k :: IsList(b.m, k) ==> b.st.values[k] == ListValue(b.data, b.lists[Public(k)])
  }

  /** An entry that is no list's is an other one, and stays. */
  lemma OtherEntry(a: Scene, others: Data, e: Bytes)
    requires InScene(a, others) && e !in a.lists && !Owned(a.lists, e)
    ensures Lookup(a.data, e) == Lookup(others, e)
  {
    hide AllStored, OwnPrefixes, Owned, ListsOf;
  }

  lemma OtherThere(a: Scene, others: Data, e: Bytes)
    requires InScene(a, others) && e in others
    ensures Lookup(a.data, e) == Some(others[e]) && e !in a.lists
  {
    hide AllStored, OwnPrefixes, Owned, ListsOf;
  }

  lemma OwnSpacesAfter(a: Scene, b: Scene, others: Data, key: Key, id: Id)
    requires Leads(a, b, others, key, id)
    ensures OwnSpaces(b.st)
  {
    hide ValuesStored, OnlyValues, ElementsStored, SpacesKnown, Clean, Matches, World, ListsOf, ListValue, Public;
  }

  /** An entry under a namespace is a list's node, or it was there before. */
  lemma EntryBefore(a: Scene, b: Scene, others: Data, key: Key, id: Id, db: Db, i: Id, s: Bytes)
    requires Leads(a, b, others, key, id) && Entry(db, i, s) in b.data && !Owned(b.lists, Entry(db, i, s))
    ensures Entry(db, i, s) in a.data && Lookup(b.data, Entry(db, i, s)) == Lookup(a.data, Entry(db, i, s))
  {
    hide Holds, Follows, World, ListsOf, Owned, Entry, Public, ListValue;
    var e := Entry(db, i, s);
    EntryNotListed(b.lists, b.st, b.m, b.drawn, db, i, s);
    OtherEntry(b, others, e);
    OtherThere(a, others, e);
  }

  lemma EntryKnown(data: Data, st: State, db: Db, i: Id, s: Bytes)
    requires Refines(data, st) && Entry(db, i, s) in data
    ensures i in st.used && forall l :: l in st.ids && st.ids[l] == i ==> l.db == db
  {
    hide ValuesStored, OnlyValues, ElementsStored, Clean, Entry;
  }

  /** What `Leads` says about the scenes themselves. */
  lemma Scenes(a: Scene, b: Scene, others: Data, key: Key, id: Id)
    requires Leads(a, b, others, key, id)
    ensures Refines(a.data, a.st) && Holds(a.data, a.st, a.m, a.drawn) && InScene(a, others) && InScene(b, others)
    ensures World(b.data, b.lists, others) && ListsOf(b.lists, b.st, b.m, b.drawn)
      && ListsOf(a.lists, a.st, a.m, a.drawn)
    ensures b.st.used == a.st.used + {id} && id !in a.st.used
  {
    hide Refines, Matches, World, ListsOf, ListValue, Public;
  }

  /** A namespace is the one a key had before, or the new one. */
  lemma IdAfter(a: Scene, b: Scene, others: Data, key: Key, id: Id, l: Key)
    requires Leads(a, b, others, key, id) && l in b.st.ids
    ensures b.st.ids[l] == id || (l in a.st.ids && b.st.ids[l] == a.st.ids[l])
  {
    hide Refines, Matches, World, ListsOf, ListValue, Public;
  }

  lemma EntryKnownAfter(a: Scene, b: Scene, others: Data, key: Key, id: Id, db: Db, i: Id, s: Bytes)
    requires Leads(a, b, others, key, id) && OwnSpaces(b.st) && Entry(db, i, s) in b.data
    ensures i in b.st.used && forall l :: l in b.st.ids && b.st.ids[l] == i ==> l.db == db
  {
    hide Leads, Holds, Refines, InScene, World, Owned, Entry, ListsOf;
    Scenes(a, b, others, key, id);
    if Owned(b.lists, Entry(db, i, s)) {
      var k := OwnerOf(b.lists, b.st, b.m, b.drawn, db, i, s);
    } else {
      EntryBefore(a, b, others, key, id, db, i, s);
      EntryKnown(a.data, a.st, db, i, s);
      forall l | l in b.st.ids && b.st.ids[l] == i ensures l.db == db { IdAfter(a, b, others, key, id, l); }
    }
  }

  lemma SpacesKnownAfter(a: Scene, b: Scene, others: Data, key: Key, id: Id)
    requires Leads(a, b, others, key, id)
    ensures SpacesKnown(b.data, b.st)
  {
    hide Leads, Entry, OwnSpaces;
    OwnSpacesAfter(a, b, others, key, id);
    forall db: Db, i: Id, s | Entry(db, i, s) in b.data
      ensures i in b.st.used && forall l :: l in b.st.ids && b.st.ids[l] == i ==> l.db == db
    {
      EntryKnownAfter(a, b, others, key, id, db, i, s);
    }
  }

  /** What `Leads` says about a key that holds no list. */
  lemma OtherKey(a: Scene, b: Scene, others: Data, key: Key, id: Id, k: Key)
    requires Leads(a, b, others, key, id) && k in b.m && !IsList(b.m, k)
    ensures k in a.m && !IsList(a.m, k) && b.m[k] == a.m[k] && k in a.st.values && k in b.st.values
      && b.st.values[k] == a.st.values[k] && IdAt(b.st.ids, k) == IdAt(a.st.ids, k)
  {
    hide Refines, Matches, World, ListsOf, ListValue, Public;
  }

  lemma OtherElements(a: Scene, b: Scene, others: Data, key: Key, id: Id, k: Key, s: Bytes)
    requires Leads(a, b, others, key, id) && OwnSpaces(b.st) && k in b.m && !IsList(b.m, k) && k in b.st.ids
    ensures k in b.st.values && Lookup(b.data, Entry(k.db, b.st.ids[k], s)) == ElemAt(b.st.values[k], s)
  {
    hide Leads, Holds, InScene, World, Owned, Entry, ListsOf, Public, ItemOf, GoodValue, Clean, ElemAt;
    Scenes(a, b, others, key, id);
    OtherKey(a, b, others, key, id, k);
    var i := b.st.ids[k];
    var e := Entry(k.db, i, s);
    if Owned(a.lists, e) { var l := OwnerOf(a.lists, a.st, a.m, a.drawn, k.db, i, s); }
    if Owned(b.lists, e) { var l := OwnerOf(b.lists, b.st, b.m, b.drawn, k.db, i, s); }
    EntryNotListed(a.lists, a.st, a.m, a.drawn, k.db, i, s);
    EntryNotListed(b.lists, b.st, b.m, b.drawn, k.db, i, s);
    OtherEntry(a, others, e);
    OtherEntry(b, others, e);
  }

  /** What `Leads` says about a key that holds a list. */
  lemma ListKey(a: Scene, b: Scene, others: Data, key: Key, id: Id, k: Key)
    requires Leads(a, b, others, key, id) && IsList(b.m, k)
    ensures Public(k) in b.lists && ChainOf(b.lists[Public(k)], b.st, b.m, b.drawn, k)
      && ListStored(b.data, Public(k), b.lists[Public(k)])
    ensures k in b.st.values && b.st.values[k] == ListValue(b.data, b.lists[Public(k)])
    ensures OldOrNew(a.st, a.m, k, b.st.ids[k], key, id)
  {
    hide Refines, Matches, OwnPrefixes, OthersKept, NothingElse, ListValue, Public, ListStored, OldOrNew;
  }

  lemma NodeSuffix(s: Bytes) returns (k: NodeKey)
    requires InFamily(TYPE_LIST, s)
    ensures s == [COLON] + k
  {
    k := s[1..];
  }

  lemma ListElement(data: Data, public: Bytes, c: Chain, db: Db, i: Id, s: Bytes)
    requires Stored(data, public, c) && c.prefix.bytes == NamespaceOf(db, i) && InFamily(TYPE_LIST, s)
    ensures Lookup(data, Entry(db, i, s)) == ElemAt(ListValue(data, c), s)
  {
    hide NamespaceOf, SentinelPayload, EncodeNode, SentinelStored, KeyspaceRuns.Family;
    var k := NodeSuffix(s);
    NodeIsEntry(db, i, k);
    KeyspaceRuns.FamilyAt(data, c.prefix.bytes, TYPE_LIST, s);
    assert Entry(db, i, s) == c.prefix.bytes + s;
    if Entry(db, i, s) in data {
      var j :| 0 <= j < |c.keys| && c.keys[j] == k;
      assert NodeStored(data, c.prefix.bytes, c.keys, c.vals, j);
    }
  }

  lemma ListValueGood(data: Data, public: Bytes, c: Chain, db: Db, i: Id)
    requires Stored(data, public, c) && c.prefix.bytes == NamespaceOf(db, i)
    ensures ListShape(ListValue(data, c), c.keys, c.vals) && GoodValue(ListValue(data, c))
  {
    hide NamespaceOf, SentinelPayload, EncodeNode, SentinelStored, KeyspaceRuns.Family, GoodKeys, Entry, ElemAt;
    var v := ListValue(data, c);
    forall k: NodeKey ensures ElemAt(v, [COLON] + k) == Lookup(data, NodeEntry(c.prefix.bytes, k)) {
      ListElement(data, public, c, db, i, [COLON] + k);
      NodeIsEntry(db, i, k);
    }
    forall j | 0 <= j < |c.keys| ensures ElemAt(v, [COLON] + c.keys[j]) == Some(NodeItem(NodeAt(c.keys, c.vals, j))) {
      assert NodeStored(data, c.prefix.bytes, c.keys, c.vals, j);
    }
    forall k: NodeKey | [COLON] + k in v.elems ensures k in c.keys { ElemThere(v, [COLON] + k); }
    forall s | s in v.elems ensures InFamily(TYPE_LIST, s) {
      KeyspaceRuns.FamilyAt(data, c.prefix.bytes, TYPE_LIST, s);
    }
  }

  lemma ElemThere(v: Value, s: Bytes)
    ensures s in v.elems <==> ElemAt(v, s).Some?
  {
  }

  lemma ListSentinelAfter(data: Data, k: Key, c: Chain, i: Id)
    requires Stored(data, Public(k), c) && c.prefix == Explicit(NamespaceOf(k.db, i))
    ensures Lookup(data, Public(k)) == Some(ItemOf(k.db, ListValue(data, c), Some(i)))
  {
    hide Public, NamespaceOf, SentinelPayload, EncodeSentinel, Payload, PrefixOf, NodesStored, KeyspaceRuns.Family;
    SentinelDetermined(data[Public(k)], SentinelPayload(|c.keys|, First(c.keys), Last(c.keys)), TYPE_LIST,
                       NamespaceOf(k.db, i), LegacyPrefix(Public(k)));
  }

  /** Under the namespace of a list there is nothing but its nodes. */
  lemma NoStray(a: Scene, b: Scene, others: Data, key: Key, id: Id, k: Key, s: Bytes)
    requires Leads(a, b, others, key, id) && IsList(b.m, k) && k in b.st.ids && !InFamily(TYPE_LIST, s)
    ensures Entry(k.db, b.st.ids[k], s) !in b.data
  {
    hide Leads, Holds, Refines, InScene, World, Owned, Entry, ListsOf, Public, ListStored, ListValue;
    Scenes(a, b, others, key, id);
    ListKey(a, b, others, key, id, k);
    var i := b.st.ids[k];
    var e := Entry(k.db, i, s);
    if Owned(b.lists, e) { var l := OwnerOf(b.lists, b.st, b.m, b.drawn, k.db, i, s); }
    if e in b.data {
      EntryBefore(a, b, others, key, id, k.db, i, s);
      EntryKnown(a.data, a.st, k.db, i, s);
      ShapeAt(a.data, a.st, a.m, a.drawn, k);
      ListHasNodesOnly(a.data, a.st, k, s);
    }
  }

  lemma ListHasNodesOnly(data: Data, st: State, k: Key, s: Bytes)
    requires Refines(data, st) && k in st.ids && k in st.values && st.values[k].kind == TYPE_LIST
      && !InFamily(TYPE_LIST, s)
    ensures Entry(k.db, st.ids[k], s) !in data
  {
    hide Refines, Entry, ItemOf, Public, ListShape;
    Compound(data, st, k);
    assert Lookup(data, Entry(k.db, st.ids[k], s)) == ElemAt(st.values[k], s);
  }

  lemma ElementsAfter(a: Scene, b: Scene, others: Data, key: Key, id: Id)
    requires Leads(a, b, others, key, id)
    ensures ElementsStored(b.data, b.st)
  {
    hide Leads, Entry, OwnSpaces, ElemAt;
    OwnSpacesAfter(a, b, others, key, id);
    forall k, s | k in b.st.ids && k in b.st.values
      ensures Lookup(b.data, Entry(k.db, b.st.ids[k], s)) == ElemAt(b.st.values[k], s)
    {
      ElementAfter(a, b, others, key, id, k, s);
    }
  }

  lemma ElementAfter(a: Scene, b: Scene, others: Data, key: Key, id: Id, k: Key, s: Bytes)
    requires Leads(a, b, others, key, id) && OwnSpaces(b.st) && k in b.st.ids && k in b.st.values
    ensures Lookup(b.data, Entry(k.db, b.st.ids[k], s)) == ElemAt(b.st.values[k], s)
  {
    hide Leads, Entry, OwnSpaces, ListValue, ElemAt, Public, InFamily, NamespaceOf, Stored, IsPublic, IsPrivate;
    KeysAfter(a, b, others, key, id, k);
    if !IsList(b.m, k) {
      OtherElements(a, b, others, key, id, k, s);
    } else {
      ListKey(a, b, others, key, id, k);
      var c := b.lists[Public(k)];
      if InFamily(TYPE_LIST, s) {
        ListElement(b.data, Public(k), c, k.db, b.st.ids[k], s);
      } else {
        NoStray(a, b, others, key, id, k, s);
        NoOtherElement(b.data, c, s);
      }
    }
  }

  lemma NoOtherElement(data: Data, c: Chain, s: Bytes)
    requires !InFamily(TYPE_LIST, s)
    ensures ElemAt(ListValue(data, c), s).None?
  {
    hide SentinelPayload, KeyspaceRuns.Family;
    KeyspaceRuns.FamilyAt(data, c.prefix.bytes, TYPE_LIST, s);
  }

  ghost predicate ValueStored(data: Data, st: State, k: Key)
    requires k in st.values
  {
    && GoodValue(st.values[k]) && (k in st.ids <==> HasElements(st.values[k].kind))
    && Lookup(data, Public(k)) == Some(ItemOf(k.db, st.values[k], IdAt(st.ids, k)))
  }

  lemma ValueBefore(data: Data, st: State, k: Key)
    requires Refines(data, st) && k in st.values
    ensures ValueStored(data, st, k)
  {
    hide GoodValue, Public, ItemOf, Clean;
  }

  lemma OtherValue(a: Scene, b: Scene, others: Data, key: Key, id: Id, k: Key)
    requires Leads(a, b, others, key, id) && k in b.m && !IsList(b.m, k)
    ensures k in b.st.values && ValueStored(b.data, b.st, k)
  {
    hide Leads, Holds, Refines, InScene, World, Owned, Public, GoodValue, ItemOf;
    Scenes(a, b, others, key, id);
    OtherKey(a, b, others, key, id, k);
    ValueBefore(a.data, a.st, k);
    NotOwned(a.st, a.m, a.drawn, a.lists, k);
    NotOwned(b.st, b.m, b.drawn, b.lists, k);
    OtherEntry(a, others, Public(k));
    OtherEntry(b, others, Public(k));
  }

  lemma ListAfter(a: Scene, b: Scene, others: Data, key: Key, id: Id, k: Key)
    requires Leads(a, b, others, key, id) && IsList(b.m, k)
    ensures k in b.st.values && ValueStored(b.data, b.st, k) && Shape(b.st.values[k], b.m[k], b.drawn)
  {
    hide Leads, Public, GoodValue, ItemOf, NamespaceOf, Stored, IsPublic, IsPrivate, ListShape;
    ListKey(a, b, others, key, id, k);
    var c, i := b.lists[Public(k)], b.st.ids[k];
    ListValueGood(b.data, Public(k), c, k.db, i);
    ListSentinelAfter(b.data, k, c, i);
  }

  lemma KeysAfter(a: Scene, b: Scene, others: Data, key: Key, id: Id, k: Key)
    requires Leads(a, b, others, key, id)
    ensures (k in b.st.values <==> k in b.m) && (k in a.m && !IsList(a.m, k) ==> k in b.m)
  {
    hide Refines, Matches, World, ListsOf, ListValue, Public;
  }

  lemma ValueAfter(a: Scene, b: Scene, others: Data, key: Key, id: Id, k: Key)
    requires Leads(a, b, others, key, id) && k in b.m
    ensures k in b.st.values && ValueStored(b.data, b.st, k) && Shape(b.st.values[k], b.m[k], b.drawn)
  {
    hide Leads, ValueStored, Shape, Refines, Holds;
    if IsList(b.m, k) {
      ListAfter(a, b, others, key, id, k);
    } else {
      OtherValue(a, b, others, key, id, k);
      OtherKey(a, b, others, key, id, k);
      Scenes(a, b, others, key, id);
      ShapeAt(a.data, a.st, a.m, a.drawn, k);
      ShapeMore(a.st.values[k], a.m[k], a.drawn, b.drawn);
    }
  }

  lemma ValuesAfter(a: Scene, b: Scene, others: Data, key: Key, id: Id)
    requires Leads(a, b, others, key, id)
    ensures ValuesStored(b.data, b.st) && Matches(b.st.values, b.m, b.drawn)
  {
    hide Leads, Public, GoodValue, ItemOf, Shape, HasElements;
    forall k ensures k in b.st.values <==> k in b.m { KeysAfter(a, b, others, key, id, k); }
    forall k | k in b.m ensures ValueStored(b.data, b.st, k) && Shape(b.st.values[k], b.m[k], b.drawn) {
      ValueAfter(a, b, others, key, id, k);
    }
  }

  lemma ShapeMore(v: Value, t: Typed, drawn: set<NodeKey>, drawn': set<NodeKey>)
    requires Shape(v, t, drawn) && !t.content.ListOf?
    ensures Shape(v, t, drawn')
  {
  }

  lemma NothingNew(a: Scene, b: Scene, others: Data, key: Key, id: Id)
    requires Leads(a, b, others, key, id)
    ensures OnlyValues(b.data, b.st) && Clean(b.data)
  {
    hide Leads, Holds, Refines, InScene, World, Owned, Public, Known, ListsOf;
    Scenes(a, b, others, key, id);
    forall k: Key | Public(k) in b.data ensures k in b.st.values { OnlyValueAfter(a, b, others, key, id, k); }
    forall e | e in b.data ensures Known(e) { KnownAfter(a, b, others, key, id, e); }
  }

  lemma OnlyValueAfter(a: Scene, b: Scene, others: Data, key: Key, id: Id, k: Key)
    requires Leads(a, b, others, key, id) && Public(k) in b.data
    ensures k in b.st.values
  {
    hide Leads, Holds, Refines, InScene, World, Owned, Public, Clean;
    KeysAfter(a, b, others, key, id, k);
    Scenes(a, b, others, key, id);
    if k !in b.m {
      NotOwned(b.st, b.m, b.drawn, b.lists, k);
      OtherEntry(b, others, Public(k));
      OtherThere(a, others, Public(k));
      Present(a.data, a.st, k);
      ShapeAt(a.data, a.st, a.m, a.drawn, k);
    }
  }

  lemma KnownAfter(a: Scene, b: Scene, others: Data, key: Key, id: Id, e: Bytes)
    requires Leads(a, b, others, key, id) && e in b.data
    ensures Known(e)
  {
    hide Leads, Holds, Refines, InScene, World, Public, Known, NamespaceOf;
    Scenes(a, b, others, key, id);
    if e in b.lists {
      var k: Key :| e == Public(k);
      PublicKnown(k);
    } else if p :| p in b.lists && IsNodeEntry(b.lists[p].prefix.bytes, e) {
      var k: Key :| p == Public(k);
      assert ChainOf(b.lists[p], b.st, b.m, b.drawn, k);
      var ns := NamespaceOf(k.db, b.st.ids[k]);
      assert ns <= ns + [COLON] <= e;
      EntryUnder(e, k.db, b.st.ids[k]);
    } else {
      OtherEntry(b, others, e);
      OtherThere(a, others, e);
      CleanAt(a.data, a.st, e);
    }
  }

  lemma CleanAt(data: Data, st: State, e: Bytes)
    requires Refines(data, st) && e in data
    ensures Known(e)
  {
    hide Known, ValuesStored, OnlyValues, ElementsStored, SpacesKnown, OwnSpaces;
  }

  /** The keyspace after a list command holds the lists it left, and all else as before. */
  lemma ListsHold(a: Scene, b: Scene, others: Data, key: Key, id: Id)
    requires Leads(a, b, others, key, id)
    ensures Holds(b.data, b.st, b.m, b.drawn)
  {
    hide Leads, ValuesStored, OnlyValues, ElementsStored, SpacesKnown, OwnSpaces, Clean, Matches;
    OwnSpacesAfter(a, b, others, key, id);
    SpacesKnownAfter(a, b, others, key, id);
    ElementsAfter(a, b, others, key, id);
    ValuesAfter(a, b, others, key, id);
    NothingNew(a, b, others, key, id);
  }

  // ---- List commands -----------------------------------------------------

  /** The keyspace with the lists `lists`. */
  ghost function NextState(st: State, m: Plain, lists: Lists, data: Data, id: Id): State
    requires forall k :: k in m ==> if IsList(m, k) then Public(k) in lists else k in st.values
  {
    State(map k | k in m :: if IsList(m, k) then ListValue(data, lists[Public(k)]) else st.values[k],
          map k | k in m && (IsList(m, k) || k in st.ids) ::
            if IsList(m, k) then NewId(st, k, lists[Public(k)].prefix.bytes, id) else st.ids[k],
          st.used + {id})
  }

  lemma StoredExplicit(data: Data, p: Bytes, c: Chain)
    requires Stored(data, p, c) && c.prefix.bytes != [] && c.prefix.bytes[0] == PLUS
    ensures c.prefix.explicit
  {
    PrefixKind(data[p], LegacyPrefix(p));
  }

  /** A list lies under the namespace its key had, or under the new one. */
  lemma SpaceAfter(a: Scene, others: Data, data: Data, lists: Lists, key: Key, id: Id, k: Key, names: ListRuns.Names)
    requires Refines(a.data, a.st) && id !in a.st.used && InScene(a, others) && World(data, lists, others)
    requires Public(k) in lists && ListRuns.Covers(names, lists)
    requires names.prefixes == NamesOf(a.lists, a.drawn).prefixes + {(Public(key), NamespaceOf(key.db, id))}
    ensures var i := NewId(a.st, k, lists[Public(k)].prefix.bytes, id);
      OldOrNew(a.st, a.m, k, i, key, id) && lists[Public(k)].prefix == Explicit(NamespaceOf(k.db, i))
  {
    hide Refines, Public, NamespaceOf, OwnPrefixes, OthersKept, NothingElse, IsPublic, IsPrivate, Stored;
    var c := lists[Public(k)];
    assert (Public(k), c.prefix.bytes) in names.prefixes;
    assert ListStored(data, Public(k), c);
    if Public(k) in a.lists && c.prefix.bytes == a.lists[Public(k)].prefix.bytes {
      assert ChainOf(a.lists[Public(k)], a.st, a.m, a.drawn, k);
      SpaceIsPrivate(k.db, a.st.ids[k]);
    } else {
      PublicInjective(k, key);
      SpaceIsPrivate(k.db, id);
      OwnUsed(a.data, a.st, k);
      if k in a.st.ids { EntryInjective(k.db, a.st.ids[k], [], k.db, id, []); }
    }
    StoredExplicit(data, Public(k), c);
  }

  /** The map becomes `m'`: its lists are `lists`, all else stays. */
  ghost predicate Becoming(m: Plain, m': Plain, lists: Lists) {
    && (forall k: Key :: Public(k) in lists <==> IsList(m', k))
    && (forall p :: p in lists ==> exists k: Key :: p == Public(k))
    && (forall k: Key :: IsList(m', k) ==> m'[k] == Typed(ListOf(lists[Public(k)].vals), lists[Public(k)].expiry))
    && (forall k :: k in m && !IsList(m, k) ==> k in m' && !IsList(m', k))
    && (forall k :: k in m' && !IsList(m', k) ==> k in m && !IsList(m, k) && m'[k] == m[k])
  }

  ghost predicate PlainAt(lists: Lists, plain: ListRuns.Plain<Key>, k: Key) {
    && (Public(k) in lists <==> k in plain)
    && (k in plain ==> plain[k] == ListRuns.PlainList(lists[Public(k)].vals, lists[Public(k)].expiry))
  }

  /** The stored lists are the plain ones, key by key. */
  lemma PlainLists(lists: Lists, plain: ListRuns.Plain<Key>)
    requires ListRuns.Agree(lists, Image(plain))
    ensures forall k: Key :: PlainAt(lists, plain, k)
    ensures forall p :: p in lists ==> exists k: Key :: p == Public(k)
  {
    hide Public, Image;
    ImageFacts(plain);
    forall k: Key ensures PlainAt(lists, plain, k) { assert Public(k) in lists <==> Public(k) in Image(plain); }
  }

  /** A list beside the other values. */
  lemma BesideOthers(m: Plain, plain: ListRuns.Plain<Key>, k: Key)
    requires k in plain ==> k !in OthersIn(m)
    ensures var m' := OthersIn(m) + AsTyped(plain);
      && (IsList(m', k) <==> k in plain) && (k in plain ==> m'[k] == Typed(ListOf(plain[k].vals), plain[k].expiry))
      && (k in m && !IsList(m, k) ==> k in m' && !IsList(m', k))
      && (k in m' && !IsList(m', k) ==> k in m && !IsList(m, k) && m'[k] == m[k])
  {
  }

  lemma ListsAfter(m: Plain, lists: Lists, plain: ListRuns.Plain<Key>, data: Data, others: Data)
    requires World(data, lists, others) && ListRuns.Agree(lists, Image(plain))
    requires forall k: Key :: Public(k) in others <==> k in OthersIn(m)
    ensures Becoming(m, OthersIn(m) + AsTyped(plain), lists)
  {
    hide Public, Image, AllStored, OwnPrefixes, NothingElse, Owned, OthersIn, AsTyped, ListRuns.Agree;
    PlainLists(lists, plain);
    forall k ensures k in plain ==> k !in OthersIn(m) { assert PlainAt(lists, plain, k); }
    hide World;
    var m' := OthersIn(m) + AsTyped(plain);
    forall k
      ensures (Public(k) in lists <==> IsList(m', k))
        && (IsList(m', k) ==> m'[k] == Typed(ListOf(lists[Public(k)].vals), lists[Public(k)].expiry))
    {
      assert PlainAt(lists, plain, k);
      BesideOthers(m, plain, k);
    }
    forall k
      ensures (k in m && !IsList(m, k) ==> k in m' && !IsList(m', k))
        && (k in m' && !IsList(m', k) ==> k in m && !IsList(m, k) && m'[k] == m[k])
    {
      BesideOthers(m, plain, k);
    }
  }

  /** Every list of `m` lies under the namespace of its key, which is an old one or the new one. */
  ghost predicate InSpaces(st: State, m: Plain, m': Plain, lists: Lists, key: Key, id: Id)
    requires forall k: Key :: IsList(m', k) ==> Public(k) in lists
  {
    forall k :: IsList(m', k) ==>
      var i := NewId(st, k, lists[Public(k)].prefix.bytes, id);
      OldOrNew(st, m, k, i, key, id) && lists[Public(k)].prefix == Explicit(NamespaceOf(k.db, i))
  }

  lemma NextFollows(st: State, m: Plain, m': Plain, lists: Lists, data: Data, key: Key, id: Id)
    requires Becoming(m, m', lists) && InSpaces(st, m, m', lists, key, id) && forall k :: k in m <==> k in st.values
    ensures Follows(st, NextState(st, m', lists, data, id), m, m', key, id)
    ensures forall k :: IsList(m', k) ==>
      NextState(st, m', lists, data, id).values[k] == ListValue(data, lists[Public(k)])
  {
    hide Public, ListValue, NewId, NamespaceOf, Follows;
    var st' := NextState(st, m', lists, data, id);
    forall k | k in m' && !IsList(m', k)
      ensures k in m && m'[k] == m[k] && k in st.values && st'.values[k] == st.values[k]
        && IdAt(st'.ids, k) == IdAt(st.ids, k)
    {
    }
    forall k | IsList(m', k) ensures k in st'.ids && OldOrNew(st, m, k, st'.ids[k], key, id) {
      assert st'.ids[k] == NewId(st, k, lists[Public(k)].prefix.bytes, id);
    }
    FollowsFrom(st, st', m, m', lists, key, id);
  }

  lemma FollowsFrom(st: State, st': State, m: Plain, m': Plain, lists: Lists, key: Key, id: Id)
    requires Becoming(m, m', lists) && st'.used == st.used + {id} && (forall k :: k in st'.values <==> k in m')
    requires forall k :: k in m' && !IsList(m', k) ==>
      && k in m && m'[k] == m[k] && k in st.values && st'.values[k] == st.values[k]
      && IdAt(st'.ids, k) == IdAt(st.ids, k)
    requires forall k :: IsList(m', k) ==> k in st'.ids && OldOrNew(st, m, k, st'.ids[k], key, id)
    requires forall k :: k in st'.ids ==> k in m'
    ensures Follows(st, st', m, m', key, id)
  {
    hide Public;
  }

  lemma NextLists(st: State, m: Plain, m': Plain, lists: Lists, data: Data, key: Key, id: Id, names: ListRuns.Names)
    requires Becoming(m, m', lists) && InSpaces(st, m, m', lists, key, id) && forall k :: k in m <==> k in st.values
    requires ListRuns.Covers(names, lists)
    ensures ListsOf(lists, NextState(st, m', lists, data, id), m', names.keys)
  {
    hide Public, ListValue, NewId, NamespaceOf, OldOrNew;
  }

  lemma NextScene(a: Scene, others: Data, data: Data, lists: Lists, plain: ListRuns.Plain<Key>, key: Key, id: Id,
                  names: ListRuns.Names)
    returns (b: Scene)
    requires Holds(a.data, a.st, a.m, a.drawn) && id !in a.st.used && InScene(a, others)
    requires World(data, lists, others) && ListRuns.Agree(lists, Image(plain)) && ListRuns.Covers(names, lists)
    requires forall k: Key :: Public(k) in others <==> k in OthersIn(a.m)
    requires names.prefixes == NamesOf(a.lists, a.drawn).prefixes + {(Public(key), NamespaceOf(key.db, id))}
    ensures Leads(a, b, others, key, id) && b.data == data && b.m == OthersIn(a.m) + AsTyped(plain)
      && b.drawn == names.keys
  {
    hide Refines, Public, Image, World, NamespaceOf, NamesOf, ListValue, NewId, AsTyped, OthersIn, Shape, Follows;
    hide NextState, ListRuns.Agree, ListRuns.Covers, ListsOf, OldOrNew;
    var m' := OthersIn(a.m) + AsTyped(plain);
    ListsAfter(a.m, lists, plain, data, others);
    forall k | IsList(m', k)
      ensures var i := NewId(a.st, k, lists[Public(k)].prefix.bytes, id);
        OldOrNew(a.st, a.m, k, i, key, id) && lists[Public(k)].prefix == Explicit(NamespaceOf(k.db, i))
    {
      SpaceAfter(a, others, data, lists, key, id, k, names);
    }
    assert InSpaces(a.st, a.m, m', lists, key, id);
    hide InSpaces;
    NextFollows(a.st, a.m, m', lists, data, key, id);
    NextLists(a.st, a.m, m', lists, data, key, id, names);
    b := Scene(data, NextState(a.st, m', lists, data, id), m', names.keys, lists);
  }

  /** One list command over all lists of the keyspace. */
  method ExecuteLists(tx: Tx, c: ListRuns.Command<Key>, keys: seq<NodeKey>, id: Id, ghost st: State, ghost m: Plain,
                      ghost drawn: set<NodeKey>)
    returns (reply: ListRuns.Reply, ghost st': State)
    requires Holds(tx.data, st, m, drawn) && Fresh(c, keys, id, st.used, drawn)
    requires |ListRuns.At(ListsIn(m), c.key)| + ListRuns.Growth(c) < Pow256(4)
    modifies tx
    ensures Holds(tx.data, st', ApplyList(m, c).0, drawn + SetOf(keys)) && st'.used == st.used + {id}
      && reply == ApplyList(m, c).1
  {
    hide Refines, Matches, World, ListsOf, Public, NamespaceOf, FreshNamespace, ListRuns.FreshStep, ListRuns.Agree;
    hide ListRuns.PerformOne, ListRuns.Covers, Image, ListsIn, OthersIn, AsTyped;
    ghost var data := tx.data;
    ghost var lists, others := LayOut(data, st, m, drawn);
    ghost var a, names := Scene(data, st, m, drawn, lists), NamesOf(lists, drawn);
    StepIsFresh(data, st, m, drawn, lists, others, c, keys, id);
    PutImage(ListsIn(m), c.key, []);
    PerformImage(ListsIn(m), OthersIn(m).Keys, others.Keys, c);
    FreshSpace(c.key, id);
    var step := ListRuns.Step(OnPublic(c), keys, id);
    ghost var lists';
    reply, lists' := ListRuns.Execute(tx, step, false, lists, others, Image(ListsIn(m)), names);
    ghost var plain := ListRuns.PerformOne(ListsIn(m), OthersIn(m).Keys, c, false).0;
    ghost var b := NextScene(a, others, tx.data, lists', plain, c.key, id, ListRuns.Extended(names, step));
    ListsHold(a, b, others, c.key, id);
    st' := b.st;
    Scenes(a, b, others, c.key, id);
  }
}
