/**
  One map from keys to sequences, field maps and strings, what every command
  does to it, and how its values are kept in the keyspace.
 */
module TypedKeys {
  import opened ByteStrings
  import opened Store
  import opened Namespace
  import opened LinkedList
  import opened ListStore
  import opened Elements
  import opened Keyspace
  import KeyspaceRuns
  import ListRuns
  import Hash

  // ---- The reference: one map of typed values ----------------------------

  datatype Content = Text(bytes: Bytes) | ListOf(vals: seq<Bytes>) | FieldsOf(fields: map<Bytes, Bytes>)

  datatype Typed = Typed(content: Content, expiry: Option<int>)

  type Plain = map<Key, Typed>

  datatype Op =
    | OnLists(command: ListRuns.Command<Key>, keys: seq<NodeKey>, id: Id)
    | OnHash(k: Key, op: Hash.Op, id: Id)
    | OnText(k: Key, spec: KeyspaceRuns.SetSpec)
    | OnKeys(arrange: KeyspaceRuns.Arrangement)

  datatype Reply = FromList(list: ListRuns.Reply) | FromHash(n: Option<int>) | FromKeys(keys: KeyspaceRuns.Reply)

  function ListsIn(m: Plain): ListRuns.Plain<Key> {
    map k | k in m && m[k].content.ListOf? :: ListRuns.PlainList(m[k].content.vals, m[k].expiry)
  }

  function OthersIn(m: Plain): Plain { map k | k in m && !m[k].content.ListOf? :: m[k] }

  function AsTyped(lists: ListRuns.Plain<Key>): Plain {
    map k | k in lists :: Typed(ListOf(lists[k].vals), lists[k].expiry)
  }

  /** A list command works on the lists; keys that hold something else are foreign to it. */
  function ApplyList(m: Plain, c: ListRuns.Command<Key>): (Plain, ListRuns.Reply) {
    var (lists, reply) := ListRuns.PerformOne(ListsIn(m), OthersIn(m).Keys, c, false);
    (OthersIn(m) + AsTyped(lists), reply)
  }

  function FieldsAt(m: Plain, k: Key): map<Bytes, Bytes> {
    if k in m && m[k].content.FieldsOf? then m[k].content.fields else map[]
  }

  /** A hash that becomes empty ceases to exist; a changed one keeps its expiry, a new one has none. */
  function PutFields(m: Plain, k: Key, fields: map<Bytes, Bytes>): Plain {
    if fields == map[] then m - {k} else m[k := Typed(FieldsOf(fields), if k in m then m[k].expiry else None)]
  }

  /** A hash command works on the fields at its key, and fails where something else is. */
  function ApplyHash(m: Plain, k: Key, op: Hash.Op, nums: Hash.Numbers): (Plain, Option<int>) {
    if k in m && !m[k].content.FieldsOf? then (m, None)
    else
      var held := Hash.HashOf(FieldsAt(m, k));
      (PutFields(m, k, Hash.Perform(held, op, false, nums).fields), Hash.ReplyTo(held, op, nums))
  }

  /** SET on typed values. */
  function ApplySet(m: Plain, k: Key, s: KeyspaceRuns.SetSpec): (Plain, KeyspaceRuns.Reply) {
    if s.get && k in m && !m[k].content.Text? then (m, KeyspaceRuns.Refused)
    else if KeyspaceRuns.SetPanics(s, k in m) then (m, KeyspaceRuns.Panicked)
    else
      var done := KeyspaceRuns.Permitted(s.mode, k in m);
      var expiry := if s.keepTtl && k in m then m[k].expiry else s.expiry;
      (if done then m[k := Typed(Text(s.value), expiry)] else m,
       if s.get then KeyspaceRuns.Old(if k in m then Some(m[k].content.bytes) else None)
       else if done then KeyspaceRuns.Done else KeyspaceRuns.Null)
  }

  ghost function Apply(m: Plain, op: Op, nums: Hash.Numbers): (Plain, Reply) {
    match op
    case OnLists(c, _, _) => var (m', r) := ApplyList(m, c); (m', FromList(r))
    case OnHash(k, h, _) => var (m', r) := ApplyHash(m, k, h, nums); (m', FromHash(r))
    case OnText(k, spec) => var (m', r) := ApplySet(m, k, spec); (m', FromKeys(r))
    case OnKeys(a) => var (m', r) := KeyspaceRuns.Arrange(m, a); (m', FromKeys(r))
  }

  // ---- Typed values in the keyspace --------------------------------------

  ghost predicate HashShape(v: Value, fields: map<Bytes, Bytes>) {
    && fields != map[] && |fields| < Pow256(4) && v.payload == BigEndian(|fields|, 4)
    && forall s :: ElemAt(v, s) == if [0] <= s then Hash.FieldAt(fields, s[1..]) else None
  }

  /** How a typed value is kept: the nodes of a list have keys from `drawn`. */
  ghost predicate Shape(v: Value, t: Typed, drawn: set<NodeKey>) {
    v.expiry == t.expiry &&
    match t.content
    case Text(b) => v.kind == TYPE_STRING && v.payload == b && v.elems == map[]
    case ListOf(vals) => v.kind == TYPE_LIST && exists keys :: ListShape(v, keys, vals) && SetOf(keys) <= drawn
    case FieldsOf(fields) => v.kind == TYPE_HASH && HashShape(v, fields)
  }

  ghost predicate Matches(values: map<Key, Value>, m: Plain, drawn: set<NodeKey>) {
    && (forall k :: k in values <==> k in m)
    && forall k :: k in m ==> Shape(values[k], m[k], drawn)
  }

  ghost predicate Holds(data: Data, st: State, m: Plain, drawn: set<NodeKey>) {
    Refines(data, st) && Matches(st.values, m, drawn)
  }

  lemma ShapeAt(data: Data, st: State, m: Plain, drawn: set<NodeKey>, k: Key)
    requires Holds(data, st, m, drawn)
    ensures k in m <==> k in st.values
    ensures k in m ==> Shape(st.values[k], m[k], drawn) && (m[k].content.FieldsOf? <==> st.values[k].kind == TYPE_HASH)
  {
    hide Refines, ListShape, HashShape;
  }

  lemma HoldsRefines(data: Data, st: State, m: Plain, drawn: set<NodeKey>)
    requires Holds(data, st, m, drawn)
    ensures Refines(data, st)
  {
  }

  // ---- Arranging, and SET ------------------------------------------------

  lemma LessMatches(values: map<Key, Value>, m: Plain, drawn: set<NodeKey>, s: set<Key>)
    requires Matches(values, m, drawn)
    ensures Matches(values - s, m - s, drawn) && |values.Keys * s| == |m.Keys * s|
  {
    hide Shape;
    assert values.Keys == m.Keys;
  }

  lemma RenamedMatches(values: map<Key, Value>, m: Plain, drawn: set<NodeKey>, k: Key, to: Key)
    requires Matches(values, m, drawn)
    ensures Matches(RenameIn(values, k, to), RenameIn(m, k, to), drawn)
    ensures Matches(Renamed(values, k, to), Renamed(m, k, to), drawn)
  {
    hide Shape;
  }

  lemma Arranged(values: map<Key, Value>, m: Plain, drawn: set<NodeKey>, op: KeyspaceRuns.Arrangement)
    requires Matches(values, m, drawn)
    ensures Matches(KeyspaceRuns.Arrange(values, op).0, KeyspaceRuns.Arrange(m, op).0, drawn)
    ensures KeyspaceRuns.Arrange(values, op).1 == KeyspaceRuns.Arrange(m, op).1
  {
    assert forall k :: k in values <==> k in m;
    hide Matches, RenameIn, Renamed;
    match op
    case RenameOp(k, to) => RenamedMatches(values, m, drawn, k, to);
    case RenameNxOp(k, to) => RenamedMatches(values, m, drawn, k, to);
    case MoveOp(k, db) => RenamedMatches(values, m, drawn, k, Key(db, k.name));
    case DelOp(keys) => LessMatches(values, m, drawn, SetOf(keys));
    case ExpireOp(k) => LessMatches(values, m, drawn, {k});
  }

  lemma TextSet(values: map<Key, Value>, m: Plain, drawn: set<NodeKey>, k: Key, s: KeyspaceRuns.SetSpec)
    requires Matches(values, m, drawn)
    ensures Matches(KeyspaceRuns.SetIn(values, k, s).0, ApplySet(m, k, s).0, drawn)
    ensures KeyspaceRuns.SetIn(values, k, s).1 == ApplySet(m, k, s).1
  {
  }

  method ExecuteKeys(tx: Tx, op: KeyspaceRuns.Arrangement, ghost st: State, ghost m: Plain, ghost drawn: set<NodeKey>)
    returns (reply: KeyspaceRuns.Reply, ghost st': State)
    requires Holds(tx.data, st, m, drawn)
    requires op.RenameOp? || op.RenameNxOp? ==> op.k.db == op.to.db
    modifies tx
    ensures Holds(tx.data, st', KeyspaceRuns.Arrange(m, op).0, drawn) && st'.used == st.used
      && reply == KeyspaceRuns.Arrange(m, op).1
  {
    hide Refines, Matches, KeyspaceRuns.Arrange;
    Arranged(st.values, m, drawn, op);
    reply, st' := KeyspaceRuns.Execute(tx, op, st);
  }

  method ExecuteSet(tx: Tx, k: Key, s: KeyspaceRuns.SetSpec, ghost st: State, ghost m: Plain, ghost drawn: set<NodeKey>)
    returns (reply: KeyspaceRuns.Reply, ghost st': State)
    requires Holds(tx.data, st, m, drawn)
    modifies tx
    ensures Holds(tx.data, st', ApplySet(m, k, s).0, drawn) && st'.used == st.used && reply == ApplySet(m, k, s).1
  {
    hide Refines, Matches, KeyspaceRuns.SetIn, ApplySet;
    TextSet(st.values, m, drawn, k, s);
    reply, st' := KeyspaceRuns.SetString(tx, k, s, st);
  }
}
