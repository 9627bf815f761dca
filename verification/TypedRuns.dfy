/**
  All kinds of commands on one store. In every run of list, hash and string
  commands, renaming, moving, deleting and expiring, the replies and the
  contents are those of one plain map from keys to sequences, fields and
  strings.
 */
module TypedRuns {
  import opened ByteStrings
  import opened Store
  import opened Namespace
  import opened LinkedList
  import opened ListStore
  import opened Elements
  import opened Keyspace
  import KeyspaceRuns
  import ListRuns
  import Hash
  import opened TypedKeys
  import opened TypedHashes
  import opened TypedLists

  /** What a command respects: new names, one database for RENAME, and counts that fit their width. */
  ghost predicate Allowed(m: Plain, used: set<Id>, drawn: set<NodeKey>, op: Op) {
    match op
    case OnLists(c, keys, id) =>
      Fresh(c, keys, id, used, drawn) && |ListRuns.At(ListsIn(m), c.key)| + ListRuns.Growth(c) < Pow256(4)
    case OnHash(k, h, id) => id !in used && Hash.Callable(h) && |FieldsAt(m, k)| + Hash.Growth(h) < Pow256(4)
    case OnText(_, _) => true
    case OnKeys(a) => a.RenameOp? || a.RenameNxOp? ==> a.k.db == a.to.db
  }

  ghost function UsedBy(used: set<Id>, op: Op): set<Id> {
    match op case OnLists(_, _, id) => used + {id} case OnHash(_, _, id) => used + {id} case _ => used
  }

  ghost function DrawnBy(drawn: set<NodeKey>, op: Op): set<NodeKey> {
    if op.OnLists? then drawn + SetOf(op.keys) else drawn
  }

  /** One command gives the reply and the contents of the same command on the plain map. */
  method Execute(tx: Tx, op: Op, nums: Hash.Numbers, ghost st: State, ghost m: Plain, ghost drawn: set<NodeKey>)
    returns (reply: Reply, ghost st': State)
    requires Holds(tx.data, st, m, drawn) && Allowed(m, st.used, drawn, op)
    modifies tx
    ensures Holds(tx.data, st', Apply(m, op, nums).0, DrawnBy(drawn, op)) && reply == Apply(m, op, nums).1
      && st'.used == UsedBy(st.used, op)
  {
    hide Holds, Fresh, ApplyList, ApplyHash, ApplySet, KeyspaceRuns.Arrange, ListsIn, FieldsAt;
    match op
    case OnLists(c, keys, id) =>
      var r;
      r, st' := ExecuteLists(tx, c, keys, id, st, m, drawn);
      reply := FromList(r);
    case OnHash(k, h, id) =>
      var r;
      r, st' := ExecuteHash(tx, k, h, id, nums, st, m, drawn);
      reply := FromHash(r);
    case OnText(k, spec) =>
      var r;
      r, st' := ExecuteSet(tx, k, spec, st, m, drawn);
      reply := FromKeys(r);
    case OnKeys(a) =>
      var r;
      r, st' := ExecuteKeys(tx, a, st, m, drawn);
      reply := FromKeys(r);
  }

  ghost predicate AllowedRun(m: Plain, used: set<Id>, drawn: set<NodeKey>, ops: seq<Op>, nums: Hash.Numbers)
    decreases |ops|
  {
    ops == [] ||
    (Allowed(m, used, drawn, ops[0])
     && AllowedRun(Apply(m, ops[0], nums).0, UsedBy(used, ops[0]), DrawnBy(drawn, ops[0]), ops[1..], nums))
  }

  ghost function ApplyAll(m: Plain, ops: seq<Op>, nums: Hash.Numbers): (Plain, seq<Reply>)
    decreases |ops|
  {
    if ops == [] then (m, [])
    else
      var (m1, reply) := Apply(m, ops[0], nums);
      var (m2, replies) := ApplyAll(m1, ops[1..], nums);
      (m2, [reply] + replies)
  }

  method RunFrom(tx: Tx, ops: seq<Op>, nums: Hash.Numbers, ghost st: State, ghost m: Plain, ghost drawn: set<NodeKey>)
    returns (replies: seq<Reply>, ghost st': State, ghost drawn': set<NodeKey>)
    requires Holds(tx.data, st, m, drawn) && AllowedRun(m, st.used, drawn, ops, nums)
    modifies tx
    ensures var (m', expected) := ApplyAll(m, ops, nums);
      replies == expected && Holds(tx.data, st', m', drawn')
    decreases |ops|
  {
    hide Holds, Allowed, Apply;
    if ops == [] {
      return [], st, drawn;
    }
    var reply; ghost var st1;
    reply, st1 := Execute(tx, ops[0], nums, st, m, drawn);
    replies, st', drawn' := RunFrom(tx, ops[1..], nums, st1, Apply(m, ops[0], nums).0, DrawnBy(drawn, ops[0]));
    replies := [reply] + replies;
  }

  /** What the commands find at a key. */
  ghost predicate Shows(data: Data, m: Plain, k: Key) {
    if k !in m then Public(k) !in data
    else match m[k].content
      case Text(b) => Lookup(data, Public(k)) == Some(Item(b, TYPE_STRING, m[k].expiry))
      case ListOf(vals) => exists c :: ListStored(data, Public(k), c) && c.vals == vals && c.expiry == m[k].expiry
      case FieldsOf(fields) =>
        ExpiryOf(data, Public(k)) == m[k].expiry && exists prefix :: Hash.Stored(data, Public(k), prefix, fields)
  }

  lemma HoldsShows(data: Data, st: State, m: Plain, drawn: set<NodeKey>, k: Key)
    requires Holds(data, st, m, drawn)
    ensures Shows(data, m, k)
  {
    hide Refines, Matches, Public, ItemOf, ListStored, ListShape, HashShape, Hash.Stored;
    ShapeAt(data, st, m, drawn, k);
    Present(data, st, k);
    if k in m {
      ItemFacts(k, st.values[k], IdAt(st.ids, k));
      match m[k].content {
        case Text(_) => TextItem(k, st.values[k]);
        case ListOf(_) => var c := ListAt(data, st, m, drawn, k);
        case FieldsOf(_) => HashShown(data, st, m, drawn, k);
      }
    }
  }

  lemma TextItem(k: Key, v: Value)
    ensures ItemOf(k.db, v, None) == Item(v.payload, v.kind, v.expiry)
  {
  }

  lemma HashShown(data: Data, st: State, m: Plain, drawn: set<NodeKey>, k: Key)
    requires Holds(data, st, m, drawn) && k in m && m[k].content.FieldsOf?
    ensures exists prefix :: Hash.Stored(data, Public(k), prefix, m[k].content.fields)
  {
    hide Holds, Refines, Public, PrefixFor, NamespaceOf, Hash.Stored;
    HashReady(data, st, m, drawn, k, NO_LINK);
    assert Hash.Stored(data, Public(k), PrefixFor(st, k, NO_LINK), m[k].content.fields);
  }

  /**
    Every run from the empty store: the replies are those of the plain map, and
    every key shows what the plain map holds, with its expiry.
   */
  method Run(tx: Tx, ops: seq<Op>, nums: Hash.Numbers) returns (replies: seq<Reply>)
    requires tx.data == map[] && AllowedRun(map[], {}, {}, ops, nums)
    modifies tx
    ensures var (m, expected) := ApplyAll(map[], ops, nums);
      replies == expected && forall k: Key :: Shows(tx.data, m, k)
  {
    ghost var st := State(map[], map[], {});
    assert Holds(tx.data, st, map[], {});
    hide AllowedRun, ApplyAll, Shows, Holds;
    ghost var st', drawn;
    replies, st', drawn := RunFrom(tx, ops, nums, st, map[], {});
    ghost var m := ApplyAll(map[], ops, nums).0;
    forall k: Key ensures Shows(tx.data, m, k) { HoldsShows(tx.data, st', m, drawn, k); }
  }
}
