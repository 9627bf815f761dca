/**
  Redis lists in the store: a sentinel under the public key and one entry per
  node, loaded into a linked list, changed and written back.
 */
module ListStore {
  import opened ByteStrings
  import opened Store
  import opened Namespace
  import opened LinkedList

  const KEY_LENGTH: nat := 16
  const SENTINEL_LENGTH: nat := 36

  type NodeKey = k: Bytes | |k| == 16 witness [0, 0, 0, 0, 0, 0, 0, 0, 0, 0, 0, 0, 0, 0, 0, 0]

  /** A link of zero bytes means "no link". */
  const NO_LINK: NodeKey := [0, 0, 0, 0, 0, 0, 0, 0, 0, 0, 0, 0, 0, 0, 0, 0]

  type Node = ListNode<NodeKey, Bytes>

  // ---- Layout ------------------------------------------------------------

  function NodeEntry(prefix: Bytes, key: NodeKey): Bytes { prefix + [COLON] + key }

  /** What follows the prefix and the colon in an entry's key. */
  function EntryKey(prefix: Bytes, e: Bytes): Bytes { if |e| > |prefix| then e[|prefix| + 1..] else [] }

  predicate IsNodeEntry(prefix: Bytes, e: Bytes) {
    |e| == |prefix| + 1 + KEY_LENGTH && prefix + [COLON] <= e
  }

  /** Node keys have one length, so an entry tells its prefix and its node key. */
  lemma NodeEntryInjective(p: Bytes, k: NodeKey, q: Bytes, l: NodeKey)
    ensures NodeEntry(p, k) == NodeEntry(q, l) ==> p == q && k == l
    ensures IsNodeEntry(q, NodeEntry(p, k)) <==> p == q
  {
    var e := NodeEntry(p, k);
    assert e[..|p|] == p && e[|p| + 1..] == k && e[|p|] == COLON;
    if IsNodeEntry(q, e) {
      assert e[..|q|] == (q + [COLON])[..|q|] == q;
    }
    assert e[..|p| + 1] == p + [COLON];
    assert NodeEntry(q, l)[..|q|] == q && NodeEntry(q, l)[|q| + 1..] == l;
  }

  lemma NodeEntryShape(prefix: Bytes, e: Bytes) returns (k: NodeKey)
    requires IsNodeEntry(prefix, e)
    ensures e == NodeEntry(prefix, k)
  {
    k := e[|prefix| + 1..];
  }

  function LinkBytes(link: Option<NodeKey>): NodeKey { if link.Some? then link.value else NO_LINK }

  function ToLink(k: NodeKey): Option<NodeKey> { if k == NO_LINK then None else Some(k) }

  function EncodeNode(n: Node): Bytes { n.value + LinkBytes(n.prev) + LinkBytes(n.next) }

  function DecodeNode(key: NodeKey, val: Bytes): Option<Node> {
    if |val| < 2 * KEY_LENGTH then None
    else
      var split := |val| - 2 * KEY_LENGTH;
      Some(ListNode(key, val[..split], ToLink(val[split..split + KEY_LENGTH]), ToLink(val[split + KEY_LENGTH..])))
  }

  lemma NodeRoundTrip(n: Node)
    requires n.prev != Some(NO_LINK) && n.next != Some(NO_LINK)
    ensures DecodeNode(n.key, EncodeNode(n)) == Some(n)
  {
    var val := EncodeNode(n);
    var split := |n.value|;
    assert val[..split] == n.value && val[split..split + KEY_LENGTH] == LinkBytes(n.prev)
      && val[split + KEY_LENGTH..] == LinkBytes(n.next);
  }

  function NodeItem(n: Node): Item { Item(EncodeNode(n), TYPE_LIST, None) }

  function SentinelPayload(size: nat, head: Option<NodeKey>, tail: Option<NodeKey>): Bytes {
    BigEndian(size, 4) + LinkBytes(head) + LinkBytes(tail)
  }

  /** The size, head and tail recorded in a sentinel. */
  function ReadSentinel(item: Option<Item>): Result<(nat, NodeKey, NodeKey), DbError> {
    if item.None? then Err(KeyNotFound)
    else if BaseType(item.value.meta) != TYPE_LIST then Err(WrongType)
    else match Payload(item.value)
      case Err(e) => Err(e)
      case Ok(val) =>
        if |val| < SENTINEL_LENGTH then Err(KeyNotFound)
        else Ok((FromBigEndian(val[0..4]), val[4..20], val[20..36]))
  }

  lemma SentinelPayloadRoundTrip(item: Item, size: nat, head: Option<NodeKey>, tail: Option<NodeKey>)
    requires size < Pow256(4) && BaseType(item.meta) == TYPE_LIST
      && Payload(item) == Ok(SentinelPayload(size, head, tail))
    ensures ReadSentinel(Some(item)) == Ok((size, LinkBytes(head), LinkBytes(tail)))
  {
    var val := SentinelPayload(size, head, tail);
    assert val[0..4] == BigEndian(size, 4) && val[4..20] == LinkBytes(head) && val[20..36] == LinkBytes(tail);
    BigEndianRoundTrip(size, 4);
  }

  // ---- Lists in a store --------------------------------------------------

  datatype Chain = Chain(prefix: ElementPrefix, keys: seq<NodeKey>, vals: seq<Bytes>, expiry: Option<int>)

  ghost predicate NodeStored(data: Data, prefix: Bytes, keys: seq<NodeKey>, vals: seq<Bytes>, i: nat)
    requires i < |keys| == |vals|
  {
    Lookup(data, NodeEntry(prefix, keys[i])) == Some(NodeItem(NodeAt(keys, vals, i)))
  }

  ghost predicate GoodKeys(keys: seq<NodeKey>) {
    Distinct(keys) && NO_LINK !in keys
  }

  ghost predicate SentinelStored(data: Data, public: Bytes, c: Chain) {
    && public in data
    && BaseType(data[public].meta) == TYPE_LIST
    && Payload(data[public]) == Ok(SentinelPayload(|c.keys|, First(c.keys), Last(c.keys)))
    && PrefixOf(data[public], LegacyPrefix(public)) == Ok(c.prefix) && data[public].expiry == c.expiry
  }

  ghost predicate NodesStored(data: Data, prefix: Bytes, keys: seq<NodeKey>, vals: seq<Bytes>) {
    && keys != [] && |keys| == |vals| && GoodKeys(keys)
    && forall i :: 0 <= i < |keys| ==> NodeStored(data, prefix, keys, vals, i)
  }

  /** The store holds the list `c` at `public`: its sentinel, its nodes in order, and no other node of its prefix. */
  ghost predicate Stored(data: Data, public: Bytes, c: Chain) {
    && |c.keys| < Pow256(4)
    && SentinelStored(data, public, c)
    && NodesStored(data, c.prefix.bytes, c.keys, c.vals)
    && (forall k: NodeKey :: NodeEntry(c.prefix.bytes, k) in data ==> k in c.keys)
  }

  // ---- Loading -----------------------------------------------------------

  /** Drops the links that lead to no loaded node. */
  function ResolveLinks(nodes: Nodes<NodeKey, Bytes>): Nodes<NodeKey, Bytes> {
    map k | k in nodes :: ListNode(nodes[k].key, nodes[k].value, Held(nodes[k].prev, nodes), Held(nodes[k].next, nodes))
  }

  function Held(link: Option<NodeKey>, nodes: Nodes<NodeKey, Bytes>): Option<NodeKey> {
    if link.Some? && link.value in nodes then link else None
  }

  lemma ResolveNothing(nodes: Nodes<NodeKey, Bytes>, keys: seq<NodeKey>, vals: seq<Bytes>)
    requires LinksOK(nodes, keys, vals)
    ensures ResolveLinks(nodes) == nodes
  {
    forall k | k in nodes ensures ResolveLinks(nodes)[k] == nodes[k] {
      var i :| 0 <= i < |keys| && keys[i] == k;
      assert InPlace(nodes, keys, vals, i);
    }
  }

  /** The first `i` nodes of the chain have been read. */
  ghost predicate Walked(nodes: Nodes<NodeKey, Bytes>, keys: seq<NodeKey>, vals: seq<Bytes>, i: nat) {
    && i <= |keys| == |vals|
    && (forall j :: 0 <= j < i ==> InPlace(nodes, keys, vals, j))
    && (forall k :: k in nodes ==> k in keys[..i])
  }

  lemma WalkStep(data: Data, prefix: Bytes, keys: seq<NodeKey>, vals: seq<Bytes>, nodes: Nodes<NodeKey, Bytes>, i: nat)
    requires NodesStored(data, prefix, keys, vals) && Walked(nodes, keys, vals, i) && i < |keys|
    ensures keys[i] !in nodes && keys[i] != NO_LINK
    ensures NodeEntry(prefix, keys[i]) in data
      && DecodeNode(keys[i], data[NodeEntry(prefix, keys[i])].value) == Some(NodeAt(keys, vals, i))
    ensures Walked(nodes[keys[i] := NodeAt(keys, vals, i)], keys, vals, i + 1)
  {
    assert NodeStored(data, prefix, keys, vals, i);
    NodeRoundTrip(NodeAt(keys, vals, i));
    assert forall j :: 0 <= j < i ==> keys[j] == keys[..i][j];
    var nodes' := nodes[keys[i] := NodeAt(keys, vals, i)];
    forall j | 0 <= j < i + 1 ensures InPlace(nodes', keys, vals, j) {
      if j < i { assert InPlace(nodes, keys, vals, j); }
    }
    assert keys[..i + 1] == keys[..i] + [keys[i]];
  }

  lemma WalkEnd(keys: seq<NodeKey>, vals: seq<Bytes>, nodes: Nodes<NodeKey, Bytes>)
    requires Walked(nodes, keys, vals, |keys|) && Distinct(keys)
    ensures LinksOK(nodes, keys, vals)
  {
    assert keys[..|keys|] == keys;
    forall k | k in keys ensures k in nodes {
      var j :| 0 <= j < |keys| && keys[j] == k;
      assert InPlace(nodes, keys, vals, j);
    }
  }

  /** The entries read so far are those of the collected nodes. */
  ghost predicate Seen(all: set<Bytes>, seen: set<Bytes>, prefix: Bytes, nodes: Nodes<NodeKey, Bytes>) {
    seen <= all && forall e :: e in seen ==> EntryKey(prefix, e) in nodes
  }

  lemma SeenStep(all: set<Bytes>, seen: set<Bytes>, prefix: Bytes, nodes: Nodes<NodeKey, Bytes>, k: NodeKey, node: Node)
    requires Seen(all, seen, prefix, nodes) && NodeEntry(prefix, k) in all && k !in nodes
    ensures Seen(all, seen + {NodeEntry(prefix, k)}, prefix, nodes[k := node])
    ensures |all - (seen + {NodeEntry(prefix, k)})| < |all - seen|
  {
    var e := NodeEntry(prefix, k);
    assert EntryKey(prefix, e) == k;
    assert all - seen == (all - (seen + {e})) + {e};
  }

  method ReadNode(tx: Tx, prefix: Bytes, k: NodeKey) returns (r: Result<Node, DbError>)
    ensures r.Ok? <==> NodeEntry(prefix, k) in tx.data && DecodeNode(k, tx.data[NodeEntry(prefix, k)].value).Some?
    ensures r.Ok? ==> DecodeNode(k, tx.data[NodeEntry(prefix, k)].value) == Some(r.value)
    ensures r.Err? ==> r.error == KeyNotFound
  {
    hide DecodeNode, NodeEntry;
    var item := tx.Get(NodeEntry(prefix, k));
    if item.None? {
      return Err(KeyNotFound);
    }
    var node := DecodeNode(k, item.value.value);
    return if node.Some? then Ok(node.value) else Err(KeyNotFound);
  }

  /** Follows the next links from `headKey`; a link back to a node already read ends the walk. */
  method LoadNodes(tx: Tx, prefix: Bytes, headKey: NodeKey, ghost keys: seq<NodeKey>, ghost vals: seq<Bytes>)
    returns (r: Result<Nodes<NodeKey, Bytes>, DbError>)
    ensures NodesStored(tx.data, prefix, keys, vals) && headKey == keys[0] ==> r.Ok? && LinksOK(r.value, keys, vals)
  {
    var nodes: Nodes<NodeKey, Bytes> := map[];
    var current := headKey;
    ghost var good := NodesStored(tx.data, prefix, keys, vals) && headKey == keys[0];
    ghost var seen, i: nat := {}, 0;
    WalkStart(tx.data, prefix, keys, vals);
    assert Seen(tx.data.Keys, seen, prefix, nodes);
    hide NodesStored, Walked, DecodeNode, NodeEntry, Seen, LinksOK;
    while current != NO_LINK
      invariant Seen(tx.data.Keys, seen, prefix, nodes)
      invariant good ==> i < |keys| && current == keys[i] && Walked(nodes, keys, vals, i)
      decreases |tx.data.Keys - seen|
    {
      if good { WalkStep(tx.data, prefix, keys, vals, nodes, i); }
      if current in nodes {
        break;
      }
      var node := ReadNode(tx, prefix, current);
      if node.Err? {
        return Err(node.error);
      }
      SeenStep(tx.data.Keys, seen, prefix, nodes, current, node.value);
      nodes, seen, i := nodes[current := node.value], seen + {NodeEntry(prefix, current)}, i + 1;
      if node.value.next.None? {
        break;
      }
      current := node.value.next.value;
    }
    if good { WalkEnd(keys, vals, nodes); }
    return Ok(nodes);
  }

  lemma WalkStart(data: Data, prefix: Bytes, keys: seq<NodeKey>, vals: seq<Bytes>)
    ensures NodesStored(data, prefix, keys, vals) ==>
      keys != [] && keys[0] != NO_LINK && Distinct(keys) && Walked(map[], keys, vals, 0)
  {
  }

  /**
    Loads the list at `public`. The walk ends on every store, whatever its links
    look like; on a store that holds the list `c` it gives exactly that list.
   */
  method LoadList(tx: Tx, public: Bytes, prefix: Bytes, ghost c: Chain)
    returns (r: Result<Linked<NodeKey, Bytes>, DbError>)
    ensures public !in tx.data ==> r == Err(KeyNotFound)
    ensures public in tx.data && BaseType(tx.data[public].meta) != TYPE_LIST ==> r == Err(WrongType)
    ensures Stored(tx.data, public, c) && c.prefix.bytes == prefix ==>
      && r.Ok? && fresh(r.value) && r.value.Valid()
      && r.value.chain == c.keys && r.value.vals == c.vals
        && r.value.loaded == SetOf(c.keys) && r.value.nodes.Keys == SetOf(c.keys)
  {
    var s := ReadSentinel(tx.Get(public));
    if Stored(tx.data, public, c) { StoredSentinel(tx.data, public, c); }
    if s.Err? {
      return Err(s.error);
    }
    var (size, headKey, tailKey) := s.value;
    var loaded := LoadNodes(tx, prefix, headKey, c.keys, c.vals);
    if loaded.Err? {
      return Err(loaded.error);
    }
    var ll := Assemble(size, headKey, tailKey, loaded.value, c.keys, c.vals);
    return Ok(ll);
  }

  lemma StoredSentinel(data: Data, public: Bytes, c: Chain)
    requires Stored(data, public, c)
    ensures ReadSentinel(Lookup(data, public)) == Ok((|c.keys|, c.keys[0], c.keys[|c.keys| - 1]))
  {
    SentinelPayloadRoundTrip(data[public], |c.keys|, First(c.keys), Last(c.keys));
  }

  method Assemble(size: nat, headKey: NodeKey, tailKey: NodeKey, nodes: Nodes<NodeKey, Bytes>, ghost keys: seq<NodeKey>,
                  ghost vals: seq<Bytes>)
    returns (ll: Linked<NodeKey, Bytes>)
    ensures fresh(ll) && ll.chain == keys && ll.vals == vals && ll.loaded == SetOf(keys)
    ensures (&& keys != [] && LinksOK(nodes, keys, vals) && size == |keys|
             && headKey == keys[0] && tailKey == keys[|keys| - 1]) ==> ll.Valid()
  {
    if LinksOK(nodes, keys, vals) {
      ResolveNothing(nodes, keys, vals);
      assert keys != [] ==> keys[0] in keys && keys[|keys| - 1] in keys;
    }
    ll := new Linked<NodeKey, Bytes>.Of(size, Held(Some(headKey), nodes), Held(Some(tailKey), nodes),
                                        ResolveLinks(nodes), keys, vals);
  }

  // ---- Writing back ------------------------------------------------------

  /** Two stores agree outside the sentinel of one list and the nodes of one prefix. */
  ghost predicate SameElsewhere(data: Data, data': Data, public: Bytes, prefix: Bytes) {
    forall e: Bytes :: e != public && !IsNodeEntry(prefix, e) ==> Lookup(data', e) == Lookup(data, e)
  }

  /** The node entries of one prefix once the nodes of `gone` are deleted and the `written` ones of `nodes` written. */
  ghost predicate NodesUpdated(data: Data, data': Data, prefix: Bytes, gone: set<NodeKey>, nodes: Nodes<NodeKey, Bytes>,
                               written: set<NodeKey>) {
    forall k: NodeKey :: Lookup(data', NodeEntry(prefix, k)) ==
      if k in written && k in nodes then Some(NodeItem(nodes[k])) else if k in gone then None
        else Lookup(data, NodeEntry(prefix, k))
  }

  method DeleteNodeEntries(tx: Tx, prefix: Bytes, removed: seq<NodeKey>, ghost public: Bytes)
    modifies tx
    ensures SameElsewhere(old(tx.data), tx.data, public, prefix)
    ensures NodesUpdated(old(tx.data), tx.data, prefix, SetOf(removed), map[], {})
    ensures !IsNodeEntry(prefix, public) ==> Lookup(tx.data, public) == old(Lookup(tx.data, public))
  {
    for i := 0 to |removed|
      invariant SameElsewhere(old(tx.data), tx.data, public, prefix)
      invariant NodesUpdated(old(tx.data), tx.data, prefix, SetOf(removed[..i]), map[], {})
      invariant !IsNodeEntry(prefix, public) ==> Lookup(tx.data, public) == old(Lookup(tx.data, public))
    {
      ghost var before := tx.data;
      tx.Delete(NodeEntry(prefix, removed[i]));
      assert removed[..i + 1] == removed[..i] + [removed[i]];
      forall k: NodeKey
        ensures Lookup(tx.data, NodeEntry(prefix, k)) == if k == removed[i] then None
          else Lookup(before, NodeEntry(prefix, k))
      {
        NodeEntryInjective(prefix, k, prefix, removed[i]);
      }
      NodeEntryInjective(prefix, removed[i], prefix, removed[i]);
    }
    assert removed[..|removed|] == removed;
  }

  method WriteNodes(tx: Tx, prefix: Bytes, nodes: Nodes<NodeKey, Bytes>, ghost public: Bytes)
    requires forall k :: k in nodes ==> nodes[k].key == k
    modifies tx
    ensures SameElsewhere(old(tx.data), tx.data, public, prefix)
    ensures NodesUpdated(old(tx.data), tx.data, prefix, {}, nodes, nodes.Keys)
    ensures !IsNodeEntry(prefix, public) ==> Lookup(tx.data, public) == old(Lookup(tx.data, public))
  {
    var todo := nodes.Keys;
    while todo != {}
      invariant todo <= nodes.Keys
      invariant SameElsewhere(old(tx.data), tx.data, public, prefix)
      invariant NodesUpdated(old(tx.data), tx.data, prefix, {}, nodes, nodes.Keys - todo)
      invariant !IsNodeEntry(prefix, public) ==> Lookup(tx.data, public) == old(Lookup(tx.data, public))
      decreases |todo|
    {
      var key :| key in todo;
      var node := nodes[key];
      ghost var before := tx.data;
      tx.Set(NodeEntry(prefix, node.key), NodeItem(node));
      forall k: NodeKey
        ensures Lookup(tx.data, NodeEntry(prefix, k)) == if k == key then Some(NodeItem(node))
          else Lookup(before, NodeEntry(prefix, k))
      {
        NodeEntryInjective(prefix, k, prefix, key);
      }
      NodeEntryInjective(prefix, key, prefix, key);
      todo := todo - {key};
    }
  }

  /** Writes the sentinel, deletes the entries of the removed nodes, writes every live node. */
  method PersistList(tx: Tx, public: Bytes, prefix: ElementPrefix, ll: Linked<NodeKey, Bytes>)
    returns (r: Result<(), DbError>)
    requires ll.Valid() && !IsNodeEntry(prefix.bytes, public)
    modifies tx
    ensures r.Err? <==> public in old(tx.data) && IsNamespaced(old(tx.data)[public].meta) && !prefix.explicit
    ensures r.Ok? ==>
      && SameElsewhere(old(tx.data), tx.data, public, prefix.bytes)
      && NodesUpdated(old(tx.data), tx.data, prefix.bytes, SetOf(ll.removed), ll.nodes, ll.nodes.Keys)
      && Lookup(tx.data, public) ==
        Some(SentinelItem(old(tx.data), public, SentinelPayload(ll.size, ll.head, ll.tail), TYPE_LIST, prefix))
  {
    r := WriteSentinel(tx, public, SentinelPayload(ll.size, ll.head, ll.tail), TYPE_LIST, prefix);
    if r.Err? {
      return;
    }
    ghost var data1 := tx.data;
    assert SameElsewhere(old(tx.data), data1, public, prefix.bytes);
    forall k: NodeKey
      ensures Lookup(data1, NodeEntry(prefix.bytes, k)) == old(Lookup(tx.data, NodeEntry(prefix.bytes, k)))
    {
      NodeEntryInjective(prefix.bytes, k, prefix.bytes, k);
    }
    DeleteNodeEntries(tx, prefix.bytes, ll.removed, public);
    forall k | k in ll.nodes ensures ll.nodes[k].key == k {
      var i :| 0 <= i < |ll.chain| && ll.chain[i] == k;
      assert InPlace(ll.nodes, ll.chain, ll.vals, i);
    }
    WriteNodes(tx, prefix.bytes, ll.nodes, public);
  }

  /** What is written back is the list, with no node left over from before. */
  lemma PersistStored(data: Data, data': Data, public: Bytes, prefix: ElementPrefix, nodes: Nodes<NodeKey, Bytes>,
                      gone: set<NodeKey>, keys: seq<NodeKey>, vals: seq<Bytes>)
    requires LinksOK(nodes, keys, vals) && keys != [] && GoodKeys(keys) && |keys| < Pow256(4)
    requires |prefix.bytes| < Pow256(4) && (prefix.explicit || prefix.bytes == LegacyPrefix(public))
    requires forall k: NodeKey :: NodeEntry(prefix.bytes, k) in data && k !in nodes ==> k in gone
    requires NodesUpdated(data, data', prefix.bytes, gone, nodes, nodes.Keys)
    requires Lookup(data', public) ==
      Some(SentinelItem(data, public, SentinelPayload(|keys|, First(keys), Last(keys)), TYPE_LIST, prefix))
    ensures Stored(data', public, Chain(prefix, keys, vals, ExpiryOf(data, public)))
  {
    SentinelRoundTrip(SentinelPayload(|keys|, First(keys), Last(keys)), TYPE_LIST, prefix, ExpiryOf(data, public),
                      LegacyPrefix(public));
    forall i | 0 <= i < |keys| ensures NodeStored(data', prefix.bytes, keys, vals, i) {
      assert InPlace(nodes, keys, vals, i);
    }
    forall k: NodeKey | NodeEntry(prefix.bytes, k) in data' ensures k in keys {
      assert k in nodes;
    }
  }

  // ---- Many lists in one store -------------------------------------------

  /** A public key: the database number, which has at most ten digits, a colon and the name. */
  predicate IsPublic(e: Bytes) {
    0 < FindColon(e) <= 10 && FindColon(e) < |e| && AllDigits(e[..FindColon(e)])
  }

  predicate IsPrivate(prefix: Bytes) { prefix != [] && !IsDigit(prefix[0]) && |prefix| < Pow256(4) }

  lemma PublicIsNoNode(public: Bytes, prefix: Bytes)
    requires IsPublic(public) && IsPrivate(prefix)
    ensures !IsNodeEntry(prefix, public)
  {
    assert IsDigit(public[..FindColon(public)][0]);
    assert (prefix + [COLON])[0] == prefix[0];
  }

  /** The namespace of a list created at `public`. */
  function FreshNamespace(public: Bytes, id: NodeKey): Bytes { [PLUS] + public[..FindColon(public)] + [COLON] + id }

  lemma FreshNamespaceIsNew(public: Bytes, id: NodeKey)
    requires IsPublic(public)
    ensures NewNamespace(LegacyPrefix(public), id) == Ok(Explicit(FreshNamespace(public, id)))
    ensures IsPrivate(FreshNamespace(public, id))
  {
    var legacy, colon := LegacyPrefix(public), FindColon(public);
    assert legacy[1..][..colon] == public[..colon] && legacy[1..] == public;
    assert forall j :: 1 <= j < 1 + colon ==> legacy[j] == public[j - 1];
    FindColonAt(legacy, 1 + colon);
    assert legacy[1..1 + colon] == public[..colon];
    assert Pow256(4) == 4294967296;
  }

  type Lists = map<Bytes, Chain>

  ghost predicate Owned(lists: Lists, e: Bytes) {
    exists p :: p in lists && IsNodeEntry(lists[p].prefix.bytes, e)
  }

  ghost predicate ListStored(data: Data, p: Bytes, c: Chain) {
    IsPublic(p) && IsPrivate(c.prefix.bytes) && Stored(data, p, c)
  }

  ghost predicate AllStored(data: Data, lists: Lists) {
    forall p :: p in lists ==> ListStored(data, p, lists[p])
  }

  ghost predicate OwnPrefixes(lists: Lists) {
    forall p, q :: p in lists && q in lists && p != q ==> lists[p].prefix.bytes != lists[q].prefix.bytes
  }

  ghost predicate OthersKept(data: Data, lists: Lists, others: Data) {
    && (forall e :: e in others ==> e !in lists && !Owned(lists, e) && Lookup(data, e) == Some(others[e]))
    && (forall e :: e in others && IsPublic(e) ==> BaseType(others[e].meta) != TYPE_LIST)
  }

  ghost predicate NothingElse(data: Data, lists: Lists, others: Data) {
    forall e :: e in data ==> e in lists || e in others || Owned(lists, e)
  }

  /**
    The store holds the lists `lists`, each under a prefix of its own, and the
    entries `others`, which are no lists; there is no entry besides.
   */
  ghost predicate World(data: Data, lists: Lists, others: Data) {
    AllStored(data, lists) && OwnPrefixes(lists) && OthersKept(data, lists, others) && NothingElse(data, lists, others)
  }

  /** A prefix below which the store has no node. */
  ghost predicate Unused(data: Data, prefix: Bytes) {
    forall k: NodeKey :: NodeEntry(prefix, k) !in data
  }

  /** A list stays as it is while only another list's sentinel and nodes change. */
  lemma StoredFrame(data: Data, data': Data, public: Bytes, prefix: Bytes, q: Bytes, c: Chain)
    requires Stored(data, q, c) && SameElsewhere(data, data', public, prefix)
    requires q != public && c.prefix.bytes != prefix && !IsNodeEntry(prefix, q) && !IsNodeEntry(c.prefix.bytes, public)
    ensures Stored(data', q, c)
  {
    forall k: NodeKey
      ensures Lookup(data', NodeEntry(c.prefix.bytes, k)) == Lookup(data, NodeEntry(c.prefix.bytes, k))
    {
      NodeEntryInjective(c.prefix.bytes, k, prefix, k);
      NodeEntryInjective(c.prefix.bytes, k, c.prefix.bytes, k);
    }
    assert Lookup(data', q) == Lookup(data, q);
    forall i | 0 <= i < |c.keys| ensures NodeStored(data', c.prefix.bytes, c.keys, c.vals, i) {
      assert NodeStored(data, c.prefix.bytes, c.keys, c.vals, i);
    }
  }

  lemma AllStoredFrame(data: Data, data': Data, lists: Lists, public: Bytes, prefix: Bytes)
    requires AllStored(data, lists) && IsPublic(public) && IsPrivate(prefix)
      && SameElsewhere(data, data', public, prefix)
    requires forall q :: q in lists && q != public ==> lists[q].prefix.bytes != prefix
    ensures forall q :: q in lists && q != public ==> ListStored(data', q, lists[q])
  {
    forall q | q in lists && q != public ensures ListStored(data', q, lists[q]) {
      assert ListStored(data, q, lists[q]);
      PublicIsNoNode(q, prefix);
      PublicIsNoNode(public, lists[q].prefix.bytes);
      StoredFrame(data, data', public, prefix, q, lists[q]);
    }
  }

  lemma OwnedUpdate(lists: Lists, public: Bytes, c: Chain, e: Bytes)
    requires public in lists ==> lists[public].prefix == c.prefix
    ensures Owned(lists[public := c], e) <==> IsNodeEntry(c.prefix.bytes, e) || Owned(lists, e)
  {
    var lists' := lists[public := c];
    assert public in lists' && lists'[public] == c;
    if p :| p in lists' && IsNodeEntry(lists'[p].prefix.bytes, e) {
      assert p != public ==> p in lists && IsNodeEntry(lists[p].prefix.bytes, e);
    }
    if p :| p in lists && IsNodeEntry(lists[p].prefix.bytes, e) {
      assert p in lists' && IsNodeEntry(lists'[p].prefix.bytes, e);
    }
  }

  lemma OthersUpdate(data: Data, data': Data, lists: Lists, others: Data, public: Bytes, c: Chain)
    requires OthersKept(data, lists, others) && NothingElse(data, lists, others) && public !in others
    requires SameElsewhere(data, data', public, c.prefix.bytes)
    requires forall e :: e in others ==> !IsNodeEntry(c.prefix.bytes, e)
    requires public in lists ==> lists[public].prefix == c.prefix
    ensures OthersKept(data', lists[public := c], others) && NothingElse(data', lists[public := c], others)
  {
    forall e ensures Owned(lists[public := c], e) <==> IsNodeEntry(c.prefix.bytes, e) || Owned(lists, e) {
      OwnedUpdate(lists, public, c, e);
    }
  }

  /** Writing one list changes the world at that list only. */
  lemma WorldUpdate(data: Data, data': Data, lists: Lists, others: Data, public: Bytes, c: Chain)
    requires World(data, lists, others) && public !in others && ListStored(data', public, c)
    requires SameElsewhere(data, data', public, c.prefix.bytes)
    requires forall q :: q in lists && q != public ==> lists[q].prefix.bytes != c.prefix.bytes
    requires forall e :: e in others ==> !IsNodeEntry(c.prefix.bytes, e)
    requires public in lists ==> lists[public].prefix == c.prefix
    ensures World(data', lists[public := c], others)
  {
    AllStoredFrame(data, data', lists, public, c.prefix.bytes);
    OthersUpdate(data, data', lists, others, public, c);
  }

  lemma OwnedRemove(lists: Lists, public: Bytes, e: Bytes)
    requires public in lists
    ensures Owned(lists, e) <==> IsNodeEntry(lists[public].prefix.bytes, e) || Owned(lists - {public}, e)
  {
    var lists' := lists - {public};
    if p :| p in lists && IsNodeEntry(lists[p].prefix.bytes, e) {
      assert p != public ==> p in lists' && IsNodeEntry(lists'[p].prefix.bytes, e);
    }
    if p :| p in lists' && IsNodeEntry(lists'[p].prefix.bytes, e) {
      assert p in lists && IsNodeEntry(lists[p].prefix.bytes, e);
    }
  }

  lemma OthersRemove(data: Data, data': Data, lists: Lists, others: Data, public: Bytes)
    requires OthersKept(data, lists, others) && NothingElse(data, lists, others) && public in lists
    requires SameElsewhere(data, data', public, lists[public].prefix.bytes)
    requires public !in data' && Unused(data', lists[public].prefix.bytes)
    ensures OthersKept(data', lists - {public}, others) && NothingElse(data', lists - {public}, others)
  {
    var prefix := lists[public].prefix.bytes;
    forall e ensures Owned(lists, e) <==> IsNodeEntry(prefix, e) || Owned(lists - {public}, e) {
      OwnedRemove(lists, public, e);
    }
    forall e | e in data' ensures !IsNodeEntry(prefix, e) {
      if IsNodeEntry(prefix, e) {
        var k := NodeEntryShape(prefix, e);
      }
    }
  }

  lemma WorldRemove(data: Data, data': Data, lists: Lists, others: Data, public: Bytes)
    requires World(data, lists, others) && public in lists
    requires SameElsewhere(data, data', public, lists[public].prefix.bytes)
    requires public !in data' && Unused(data', lists[public].prefix.bytes)
    ensures World(data', lists - {public}, others)
  {
    assert ListStored(data, public, lists[public]);
    AllStoredFrame(data, data', lists, public, lists[public].prefix.bytes);
    OthersRemove(data, data', lists, others, public);
  }

  lemma UnusedPrefix(data: Data, lists: Lists, others: Data, prefix: Bytes)
    requires World(data, lists, others) && Unused(data, prefix)
    ensures forall q :: q in lists ==> lists[q].prefix.bytes != prefix
    ensures forall e :: e in others ==> !IsNodeEntry(prefix, e)
  {
    forall q | q in lists ensures lists[q].prefix.bytes != prefix {
      assert ListStored(data, q, lists[q]);
      assert NodeStored(data, lists[q].prefix.bytes, lists[q].keys, lists[q].vals, 0);
    }
    forall e | e in others ensures !IsNodeEntry(prefix, e) {
      if IsNodeEntry(prefix, e) {
        var k := NodeEntryShape(prefix, e);
      }
    }
  }

  /** The expiry a list has; a new one has none. */
  ghost function ExpiryAt(lists: Lists, p: Bytes): Option<int> { if p in lists then lists[p].expiry else None }

  /** What `ll` may be written back as: the list at `public`, changed, or a new one under an unused prefix. */
  ghost predicate Writable(data: Data, lists: Lists, others: Data, public: Bytes, prefix: ElementPrefix,
                           keys: seq<NodeKey>, loaded: set<NodeKey>) {
    && World(data, lists, others) && IsPublic(public) && public !in others && IsPrivate(prefix.bytes)
    && GoodKeys(keys) && |keys| < Pow256(4)
    && (prefix.explicit || prefix.bytes == LegacyPrefix(public))
    && if public in lists then prefix == lists[public].prefix && loaded == SetOf(lists[public].keys)
       else prefix.explicit && Unused(data, prefix.bytes)
  }

  lemma WritableFacts(data: Data, lists: Lists, others: Data, public: Bytes, prefix: ElementPrefix, keys: seq<NodeKey>,
                      loaded: set<NodeKey>)
    requires Writable(data, lists, others, public, prefix, keys, loaded)
    ensures !IsNodeEntry(prefix.bytes, public)
    ensures forall q :: q in lists && q != public ==> lists[q].prefix.bytes != prefix.bytes
    ensures forall e :: e in others ==> !IsNodeEntry(prefix.bytes, e)
    ensures forall k: NodeKey :: NodeEntry(prefix.bytes, k) in data ==> k in loaded
    ensures !(public in data && IsNamespaced(data[public].meta) && !prefix.explicit)
    ensures public !in lists ==> public !in data
    ensures ExpiryOf(data, public) == ExpiryAt(lists, public)
  {
    PublicIsNoNode(public, prefix.bytes);
    if public in lists {
      assert ListStored(data, public, lists[public]);
      forall e | e in others ensures !IsNodeEntry(prefix.bytes, e) { assert !Owned(lists, e); }
    } else {
      UnusedPrefix(data, lists, others, prefix.bytes);
      if public in data {
        var p :| p in lists && IsNodeEntry(lists[p].prefix.bytes, public);
        assert ListStored(data, p, lists[p]);
        PublicIsNoNode(public, lists[p].prefix.bytes);
      }
    }
  }

  /** Writes a changed list back; an emptied list leaves neither a sentinel nor a node behind. */
  method Save(tx: Tx, public: Bytes, prefix: ElementPrefix, ll: Linked<NodeKey, Bytes>, ghost lists: Lists,
              ghost others: Data)
    returns (ghost lists': Lists)
    requires ll.Valid() && Writable(tx.data, lists, others, public, prefix, ll.chain, ll.loaded)
    requires ll.vals == [] ==> public in lists
    modifies tx
    ensures lists' == if ll.vals == [] then lists - {public}
      else lists[public := Chain(prefix, ll.chain, ll.vals, ExpiryAt(lists, public))]
    ensures World(tx.data, lists', others)
  {
    hide World;
    if ll.size == 0 {
      SaveEmpty(tx, public, prefix, ll, ll.removed, lists, others);
      lists' := lists - {public};
    } else {
      SaveList(tx, public, prefix, ll, lists, others);
      lists' := lists[public := Chain(prefix, ll.chain, ll.vals, ExpiryAt(lists, public))];
    }
  }

  method SaveList(tx: Tx, public: Bytes, prefix: ElementPrefix, ll: Linked<NodeKey, Bytes>, ghost lists: Lists,
                  ghost others: Data)
    requires ll.Valid() && Writable(tx.data, lists, others, public, prefix, ll.chain, ll.loaded) && ll.vals != []
    modifies tx
    ensures World(tx.data, lists[public := Chain(prefix, ll.chain, ll.vals, ExpiryAt(lists, public))], others)
  {
    hide World;
    WritableFacts(tx.data, lists, others, public, prefix, ll.chain, ll.loaded);
    ghost var data := tx.data;
    var r := PersistList(tx, public, prefix, ll);
    PersistStored(data, tx.data, public, prefix, ll.nodes, SetOf(ll.removed), ll.chain, ll.vals);
    WorldUpdate(data, tx.data, lists, others, public, Chain(prefix, ll.chain, ll.vals, ExpiryAt(lists, public)));
  }

  /** Deletes the node entries of `doomed`, which are all that are left, and the sentinel. */
  method SaveEmpty(tx: Tx, public: Bytes, prefix: ElementPrefix, ll: Linked<NodeKey, Bytes>, doomed: seq<NodeKey>,
                   ghost lists: Lists, ghost others: Data)
    requires Writable(tx.data, lists, others, public, prefix, ll.chain, ll.loaded)
    requires public in lists && forall k :: k in ll.loaded ==> k in doomed
    modifies tx
    ensures World(tx.data, lists - {public}, others)
  {
    hide World;
    WritableFacts(tx.data, lists, others, public, prefix, ll.chain, ll.loaded);
    ghost var data := tx.data;
    DeleteNodeEntries(tx, prefix.bytes, doomed, public);
    assert Unused(tx.data, prefix.bytes);
    tx.Delete(public);
    assert SameElsewhere(data, tx.data, public, prefix.bytes);
    assert Unused(tx.data, prefix.bytes);
    WorldRemove(data, tx.data, lists, others, public);
  }

  // ---- Commands ----------------------------------------------------------

  ghost function ValsAt(lists: Lists, p: Bytes): seq<Bytes> { if p in lists then lists[p].vals else [] }

  /** At most the list at `p` differs. */
  ghost predicate OnlyAt(lists: Lists, lists': Lists, p: Bytes) {
    forall q :: q != p ==> (q in lists <==> q in lists') && (q in lists ==> lists'[q] == lists[q])
  }

  /**
    The names of the list at `p` are old ones or freshly drawn: node keys from
    `added`, the prefix of a new list `ns`. An old list keeps its expiry.
   */
  ghost predicate Drawn(lists: Lists, lists': Lists, p: Bytes, added: set<NodeKey>, ns: Bytes) {
    p in lists' ==>
      && lists'[p].expiry == ExpiryAt(lists, p)
      && SetOf(lists'[p].keys) <= added + (if p in lists then SetOf(lists[p].keys) else {})
      && if p in lists then lists'[p].prefix == lists[p].prefix else lists'[p].prefix.bytes == ns
  }

  /** The list at `p` becomes `v` and nothing else changes. */
  ghost predicate Becomes(lists: Lists, lists': Lists, p: Bytes, v: seq<Bytes>, added: set<NodeKey>, ns: Bytes) {
    OnlyAt(lists, lists', p) && ValsAt(lists', p) == v && Drawn(lists, lists', p, added, ns)
  }

  lemma BecomesVals(lists: Lists, p: Bytes, v: seq<Bytes>)
    ensures forall lists' :: Becomes(lists, lists', p, v, {}, []) ==> ValsAt(lists', p) == v
  {
  }

  lemma BecomesSame(lists: Lists, p: Bytes, added: set<NodeKey>, ns: Bytes)
    ensures Becomes(lists, lists, p, ValsAt(lists, p), added, ns)
  {
  }

  /** The error a command gives on a key that holds something other than a list. */
  function Refusal(item: Item, public: Bytes): DbError {
    if PrefixOf(item, LegacyPrefix(public)).Err? then PrefixOf(item, LegacyPrefix(public)).error else WrongType
  }

  /** Finds the prefix of the list at `public` and loads it. */
  method Open(tx: Tx, public: Bytes, ghost lists: Lists, ghost others: Data)
    returns (r: Result<(ElementPrefix, Linked<NodeKey, Bytes>), DbError>)
    requires World(tx.data, lists, others) && IsPublic(public)
    ensures public in others ==> r == Err(Refusal(others[public], public))
    ensures public !in lists && public !in others ==> r == Err(KeyNotFound) && public !in tx.data
    ensures public in lists ==>
      && r.Ok? && r.value.0 == lists[public].prefix
      && fresh(r.value.1) && r.value.1.Valid()
        && r.value.1.vals == lists[public].vals && r.value.1.chain == lists[public].keys
      && r.value.1.loaded == SetOf(lists[public].keys) && r.value.1.nodes.Keys == SetOf(lists[public].keys)
  {
    OpenFacts(tx.data, lists, others, public);
    var item := tx.Get(public);
    var prefix := if item.Some? then PrefixOf(item.value, LegacyPrefix(public)) else Ok(Legacy(LegacyPrefix(public)));
    if prefix.Err? {
      return Err(prefix.error);
    }
    ghost var c := if public in lists then lists[public] else Chain(prefix.value, [], [], None);
    var loaded := LoadList(tx, public, prefix.value.bytes, c);
    if loaded.Err? {
      return Err(loaded.error);
    }
    return Ok((prefix.value, loaded.value));
  }

  lemma OpenFacts(data: Data, lists: Lists, others: Data, public: Bytes)
    requires World(data, lists, others) && IsPublic(public)
    ensures public in others ==>
      public in data && data[public] == others[public] && BaseType(data[public].meta) != TYPE_LIST && public !in lists
    ensures public in lists ==>
      Stored(data, public, lists[public]) && PrefixOf(data[public], LegacyPrefix(public)) == Ok(lists[public].prefix)
    ensures public in lists ==> public !in others && lists[public].vals != []
    ensures public !in lists && public !in others ==> public !in data
  {
    if public in lists {
      assert ListStored(data, public, lists[public]);
    }
    if public in data && public !in others && public !in lists {
      var p :| p in lists && IsNodeEntry(lists[p].prefix.bytes, public);
      assert ListStored(data, p, lists[p]);
      PublicIsNoNode(public, lists[p].prefix.bytes);
    }
  }

  ghost predicate NonEmpty(lists: Lists) { forall p :: p in lists ==> lists[p].vals != [] }

  lemma WorldNonEmpty(data: Data, lists: Lists, others: Data)
    requires World(data, lists, others)
    ensures NonEmpty(lists) && forall p :: p in lists ==> IsPublic(p) && p !in others
  {
    forall p | p in lists ensures IsPublic(p) && p !in others && lists[p].vals != [] {
      assert ListStored(data, p, lists[p]);
      OpenFacts(data, lists, others, p);
    }
  }

  /** An opened list, its keys being a part of the old ones and `added`, may be written back. */
  lemma OpenedWritable(data: Data, lists: Lists, others: Data, public: Bytes, keys: seq<NodeKey>, added: set<NodeKey>)
    requires World(data, lists, others) && public in lists && public !in others
    requires Distinct(keys) && (forall k :: k in keys ==> k in lists[public].keys || k in added) && NO_LINK !in added
      && |keys| < Pow256(4)
    ensures Writable(data, lists, others, public, lists[public].prefix, keys, SetOf(lists[public].keys))
  {
    assert ListStored(data, public, lists[public]);
    PrefixKind(data[public], LegacyPrefix(public));
  }

  lemma PrefixKind(item: Item, legacy: Bytes)
    requires PrefixOf(item, legacy).Ok?
    ensures PrefixOf(item, legacy).value.explicit || PrefixOf(item, legacy).value.bytes == legacy
  {
  }

  /** Writes an opened list back, `added` being the node keys drawn since. */
  method SaveOpened(tx: Tx, public: Bytes, prefix: ElementPrefix, ll: Linked<NodeKey, Bytes>, ghost added: set<NodeKey>,
                    ghost lists: Lists, ghost others: Data)
    returns (ghost lists': Lists)
    requires World(tx.data, lists, others) && public in lists && public !in others && prefix == lists[public].prefix
    requires ll.Valid() && ll.loaded == SetOf(lists[public].keys) && |ll.vals| < Pow256(4)
    requires ll.nodes.Keys <= SetOf(lists[public].keys) + added && NO_LINK !in added
    modifies tx
    ensures World(tx.data, lists', others)
    ensures Becomes(lists, lists', public, ll.vals, added, [])
  {
    hide World;
    forall k | k in ll.chain ensures k in lists[public].keys || k in added { assert k in ll.nodes.Keys; }
    OpenedWritable(tx.data, lists, others, public, ll.chain, added);
    lists' := Save(tx, public, prefix, ll, lists, others);
  }

  // Every command takes the lists and the other entries of the store as ghost
  // arguments and returns the lists afterwards.

  function Popped(s: seq<Bytes>, fromTail: bool): seq<Bytes> {
    if s == [] then [] else if fromTail then s[..|s| - 1] else s[1..]
  }

  /** LPOP and RPOP. */
  method Pop(tx: Tx, public: Bytes, fromTail: bool, ghost lists: Lists, ghost others: Data)
    returns (r: Result<Option<Bytes>, DbError>, ghost lists': Lists)
    requires World(tx.data, lists, others) && IsPublic(public)
    modifies tx
    ensures World(tx.data, lists', others)
    ensures public !in lists ==> tx.data == old(tx.data) && lists' == lists
    ensures public in others ==> r.Err?
    ensures public !in others ==>
      var s := ValsAt(lists, public);
      && r == Ok(if fromTail then Last(s) else First(s))
      && Becomes(lists, lists', public, Popped(s, fromTail), {}, [])
    ensures public in lists ==>
      && r.Ok? && r.value.Some?
      && ValsAt(lists, public) == if fromTail then ValsAt(lists', public) + [r.value.value]
                                  else [r.value.value] + ValsAt(lists', public)
  {
    hide World, Becomes, IsPublic;
    BecomesVals(lists, public, Popped(ValsAt(lists, public), fromTail));
    BecomesSame(lists, public, {}, []);
    var got := Open(tx, public, lists, others);
    OpenFacts(tx.data, lists, others, public);
    if got.Err? {
      return if got.error == KeyNotFound then Ok(None) else Err(got.error), lists;
    }
    var (prefix, ll) := got.value;
    var value;
    if fromTail {
      value := ll.RemoveTail();
    } else {
      value := ll.RemoveHead();
    }
    lists' := SaveOpened(tx, public, prefix, ll, {}, lists, others);
    return Ok(value), lists';
  }

  /** The node keys and the namespace identifier a command draws at random: unused so far. */
  ghost predicate FreshNames(data: Data, lists: Lists, public: Bytes, keys: seq<NodeKey>, id: NodeKey) {
    && Distinct(keys) && NO_LINK !in keys
    && (public in lists ==> forall k :: k in keys ==> k !in lists[public].keys)
    && Unused(data, FreshNamespace(public, id))
  }

  /** LPUSH, RPUSH, LPUSHX and RPUSHX. */
  method Push(tx: Tx, public: Bytes, values: seq<Bytes>, atTail: bool, onlyIfExists: bool, keys: seq<NodeKey>,
              id: NodeKey,
              ghost lists: Lists, ghost others: Data)
    returns (r: Result<nat, DbError>, ghost lists': Lists)
    requires World(tx.data, lists, others) && IsPublic(public)
    requires values != [] && |keys| == |values| && FreshNames(tx.data, lists, public, keys, id)
    requires |ValsAt(lists, public)| + |values| < Pow256(4)
    modifies tx
    ensures World(tx.data, lists', others)
    ensures public in others ==> r.Err? && tx.data == old(tx.data) && lists' == lists
    ensures public !in others && public !in lists && onlyIfExists ==>
      r == Ok(0) && lists' == lists && tx.data == old(tx.data)
    ensures public !in others && (public in lists || !onlyIfExists) ==>
      var s := ValsAt(lists, public);
      && Becomes(lists, lists', public, if atTail then s + values
        else Reverse(values) + s, SetOf(keys), FreshNamespace(public, id))
      && r == Ok(|s| + |values|)
  {
    hide World, Becomes, IsPublic, Reverse, FreshNamespace, Unused, SetOf;
    OpenFacts(tx.data, lists, others, public);
    if tx.Get(public).Some? {
      r, lists' := PushExisting(tx, public, values, atTail, keys, lists, others);
      if public in lists {
        BecomesAsWell(lists, lists', public,
                      if atTail then ValsAt(lists, public) + values else Reverse(values) + ValsAt(lists, public),
                      SetOf(keys), FreshNamespace(public, id));
      }
      return;
    }
    if onlyIfExists {
      return Ok(0), lists;
    }
    assert [] + values == values && Reverse(values) + [] == Reverse(values);
    r, lists' := PushNew(tx, public, values, atTail, keys, id, lists, others);
  }

  lemma BecomesAsWell(lists: Lists, lists': Lists, p: Bytes, v: seq<Bytes>, added: set<NodeKey>, ns: Bytes)
    requires p in lists
    ensures Becomes(lists, lists', p, v, added, []) ==> Becomes(lists, lists', p, v, added, ns)
  {
  }

  method PushNew(tx: Tx, public: Bytes, values: seq<Bytes>, atTail: bool, keys: seq<NodeKey>, id: NodeKey,
                 ghost lists: Lists, ghost others: Data)
    returns (r: Result<nat, DbError>, ghost lists': Lists)
    requires World(tx.data, lists, others) && IsPublic(public) && public !in lists && public !in others
    requires values != [] && |keys| == |values| && FreshNames(tx.data, lists, public, keys, id) && |values| < Pow256(4)
    modifies tx
    ensures World(tx.data, lists', others) && r == Ok(|values|)
    ensures Becomes(lists, lists', public, if atTail then values
      else Reverse(values), SetOf(keys), FreshNamespace(public, id))
  {
    hide World, Becomes, IsPublic, Reverse;
    FreshNamespaceIsNew(public, id);
    var prefix := NewNamespace(LegacyPrefix(public), id);
    var ll := new Linked<NodeKey, Bytes>();
    ll.PushAll(values, keys, atTail);
    assert [] + values == values && Reverse(values) + [] == Reverse(values);
    assert ll.nodes.Keys == SetOf(keys);
    lists' := SaveNew(tx, public, prefix.value, ll, lists, others);
    return Ok(ll.size), lists';
  }

  method PushExisting(tx: Tx, public: Bytes, values: seq<Bytes>, atTail: bool, keys: seq<NodeKey>, ghost lists: Lists,
                      ghost others: Data)
    returns (r: Result<nat, DbError>, ghost lists': Lists)
    requires World(tx.data, lists, others) && IsPublic(public) && public in tx.data && |keys| == |values|
    requires Distinct(keys) && NO_LINK !in keys
      && (public in lists ==> forall k :: k in keys ==> k !in lists[public].keys)
    requires |ValsAt(lists, public)| + |values| < Pow256(4)
    modifies tx
    ensures World(tx.data, lists', others)
    ensures public in others ==> r.Err? && tx.data == old(tx.data) && lists' == lists
    ensures public !in others ==>
      var s := ValsAt(lists, public);
      && Becomes(lists, lists', public, if atTail then s + values else Reverse(values) + s, SetOf(keys), [])
      && public in lists && r == Ok(|s| + |values|)
  {
    hide World, Becomes, IsPublic, Reverse;
    OpenFacts(tx.data, lists, others, public);
    var got := Open(tx, public, lists, others);
    match got
    case Err(e) => return Err(e), lists;
    case Ok((prefix, ll)) =>
      ll.PushAll(values, keys, atTail);
      lists' := SaveOpened(tx, public, prefix, ll, SetOf(keys), lists, others);
      return Ok(ll.size), lists';
  }

  method SaveNew(tx: Tx, public: Bytes, prefix: ElementPrefix, ll: Linked<NodeKey, Bytes>, ghost lists: Lists,
                 ghost others: Data)
    returns (ghost lists': Lists)
    requires World(tx.data, lists, others) && IsPublic(public) && public !in lists && public !in others
    requires prefix.explicit && IsPrivate(prefix.bytes) && Unused(tx.data, prefix.bytes)
    requires ll.Valid() && ll.vals != [] && |ll.vals| < Pow256(4) && NO_LINK !in ll.nodes
    modifies tx
    ensures World(tx.data, lists', others) && Becomes(lists, lists', public, ll.vals, ll.nodes.Keys, prefix.bytes)
  {
    hide World;
    KeysAreChain(ll.nodes, ll.chain, ll.vals);
    SaveList(tx, public, prefix, ll, lists, others);
    lists' := lists[public := Chain(prefix, ll.chain, ll.vals, ExpiryAt(lists, public))];
  }

  /** LREM: `count` occurrences from the head, `-count` from the tail, or all for zero. */
  function Remaining(s: seq<Bytes>, count: int, value: Bytes): seq<Bytes> {
    if count < 0 then RemoveLast(s, value, -count) else RemoveFirst(s, value, if count == 0 then |s| else count)
  }

  /** The sign of the count chooses the end from which matches go; zero takes them all. */
  lemma RemainingExact(s: seq<Bytes>, count: int, value: Bytes)
    ensures count > 0 ==> Remaining(s, count, value) == Staying(s, value, count, |s|)
    ensures count < 0 ==> Remaining(s, count, value) == Reverse(Staying(Reverse(s), value, -count, |s|))
    ensures count == 0 ==> value !in Remaining(s, count, value)
  {
    hide RemoveFirst, RemoveLast, Reverse, Staying;
    if count < 0 {
      RemoveMirror(s, value, -count);
      RemoveFirstExact(Reverse(s), value, -count);
    } else {
      RemoveFirstExact(s, value, count);
      if count == 0 { NoneLeft(s, value, |s|); }
    }
  }

  lemma {:induction false} NoneLeft(s: seq<Bytes>, value: Bytes, n: nat)
    requires n >= |s|
    ensures value !in RemoveFirst(s, value, n)
  {
    if s != [] { NoneLeft(s[1..], value, if s[0] == value then n - 1 else n); }
  }

  method LRem(tx: Tx, public: Bytes, count: int, value: Bytes, ghost lists: Lists, ghost others: Data)
    returns (r: Result<nat, DbError>, ghost lists': Lists)
    requires World(tx.data, lists, others) && IsPublic(public)
    modifies tx
    ensures World(tx.data, lists', others)
    ensures public in others ==> r.Err? && tx.data == old(tx.data) && lists' == lists
    ensures public !in others ==>
      var s := ValsAt(lists, public);
      Becomes(lists, lists', public, Remaining(s, count, value), {}, []) && r == Ok(|s| - |Remaining(s, count, value)|)
  {
    hide World, Becomes, IsPublic;
    BecomesSame(lists, public, {}, []);
    var got := Open(tx, public, lists, others);
    OpenFacts(tx.data, lists, others, public);
    if got.Err? {
      return if got.error == KeyNotFound then Ok(0) else Err(got.error), lists;
    }
    var (prefix, ll) := got.value;
    var n;
    if count < 0 {
      n := ll.RemoveMatchingFromTail(count, value);
    } else {
      n := ll.RemoveMatching(count, value);
    }
    lists' := SaveOpened(tx, public, prefix, ll, {}, lists, others);
    return Ok(n), lists';
  }

  function Trimmed(s: seq<Bytes>, start: int, stop: int): seq<Bytes> {
    var range := Clamp(start, stop, |s|);
    if range.None? then [] else s[range.value.0..range.value.1 + 1]
  }

  /** The elements whose positions the indices enclose, in order. */
  function Enclosed(s: seq<Bytes>, start: int, stop: int, n: nat): seq<Bytes>
    requires n <= |s|
  {
    if n == 0 then []
    else Enclosed(s, start, stop, n - 1) + (if Between(start, stop, |s|, n - 1) then [s[n - 1]] else [])
  }

  lemma {:induction false} EnclosedPart(s: seq<Bytes>, start: int, stop: int, n: nat, lo: nat, hi: nat)
    requires n <= |s| && lo <= hi <= |s|
    requires forall k :: 0 <= k < |s| ==> (lo <= k < hi <==> Between(start, stop, |s|, k))
    ensures Enclosed(s, start, stop, n) == if n <= lo then [] else s[lo..if n <= hi then n else hi]
  {
    if n > 0 { EnclosedPart(s, start, stop, n - 1, lo, hi); }
  }

  /** LTRIM keeps exactly the elements whose positions the indices enclose. */
  lemma TrimmedExact(s: seq<Bytes>, start: int, stop: int)
    ensures Trimmed(s, start, stop) == Enclosed(s, start, stop, |s|)
  {
    var range := Clamp(start, stop, |s|);
    var lo, hi := if range.Some? then range.value.0 else 0, if range.Some? then range.value.1 + 1 else 0;
    forall k | 0 <= k < |s| ensures lo <= k < hi <==> Between(start, stop, |s|, k) {
      ClampExact(start, stop, |s|, k);
    }
    EnclosedPart(s, start, stop, |s|, lo, hi);
  }

  /** The indices 0 and -1 enclose the whole list, -1 and -1 its last element. */
  lemma TrimWhole(s: seq<Bytes>)
    ensures Trimmed(s, 0, -1) == s && (s != [] ==> Trimmed(s, -1, -1) == [s[|s| - 1]])
  {
    assert s != [] ==> s[0..|s|] == s;
  }

  method LTrim(tx: Tx, public: Bytes, start: int, stop: int, ghost lists: Lists, ghost others: Data)
    returns (r: Result<(), DbError>, ghost lists': Lists)
    requires World(tx.data, lists, others) && IsPublic(public)
    modifies tx
    ensures World(tx.data, lists', others)
    ensures public in others ==> r.Err? && tx.data == old(tx.data) && lists' == lists
    ensures public !in others ==>
      var s := ValsAt(lists, public);
      r == Ok(()) && Becomes(lists, lists', public, Trimmed(s, start, stop), {}, [])
    ensures public !in others ==>
      ValsAt(lists', public) == Enclosed(ValsAt(lists, public), start, stop, |ValsAt(lists, public)|)
  {
    hide World, Becomes, IsPublic;
    TrimmedExact(ValsAt(lists, public), start, stop);
    BecomesVals(lists, public, Trimmed(ValsAt(lists, public), start, stop));
    BecomesSame(lists, public, {}, []);
    var got := Open(tx, public, lists, others);
    OpenFacts(tx.data, lists, others, public);
    if got.Err? {
      return if got.error == KeyNotFound then Ok(()) else Err(got.error), lists;
    }
    var (prefix, ll) := got.value;
    var range := Clamp(start, stop, ll.size);
    if range.None? {
      lists' := Drop(tx, public, prefix, ll, lists, others);
      return Ok(()), lists';
    }
    ll.TrimTo(range.value.0, range.value.1);
    lists' := SaveOpened(tx, public, prefix, ll, {}, lists, others);
    return Ok(()), lists';
  }

  /** Deletes a list with all its nodes, live or removed. */
  method Drop(tx: Tx, public: Bytes, prefix: ElementPrefix, ll: Linked<NodeKey, Bytes>, ghost lists: Lists,
              ghost others: Data)
    returns (ghost lists': Lists)
    requires World(tx.data, lists, others) && public in lists && public !in others && prefix == lists[public].prefix
    requires ll.Valid() && ll.loaded == SetOf(lists[public].keys) && ll.chain == lists[public].keys
      && |ll.vals| < Pow256(4)
    modifies tx
    ensures World(tx.data, lists', others) && Becomes(lists, lists', public, [], {}, [])
  {
    hide World;
    var keys := ll.OrderedKeys();
    OpenedWritable(tx.data, lists, others, public, ll.chain, {});
    SaveEmpty(tx, public, prefix, ll, ll.removed + keys, lists, others);
    lists' := lists - {public};
  }

  method LInsert(tx: Tx, public: Bytes, before: bool, pivot: Bytes, value: Bytes, key: NodeKey, ghost lists: Lists,
                 ghost others: Data)
    returns (r: Result<int, DbError>, ghost lists': Lists)
    requires World(tx.data, lists, others) && IsPublic(public) && key != NO_LINK
    requires public in lists ==> key !in lists[public].keys && |lists[public].vals| + 1 < Pow256(4)
    modifies tx
    ensures World(tx.data, lists', others)
    ensures public in others ==> r.Err? && tx.data == old(tx.data) && lists' == lists
    ensures public !in others ==>
      var s := ValsAt(lists, public);
      && Becomes(lists, lists', public, InsertNear(s, before, pivot, value), {key}, [])
      && r == Ok(if pivot in s then |s| + 1 else -1) && (pivot !in s ==> lists' == lists && tx.data == old(tx.data))
  {
    hide World, Becomes, IsPublic;
    BecomesSame(lists, public, {key}, []);
    var got := Open(tx, public, lists, others);
    OpenFacts(tx.data, lists, others, public);
    if got.Err? {
      return if got.error == KeyNotFound then Ok(-1) else Err(got.error), lists;
    }
    var (prefix, ll) := got.value;
    InsertNearLength(ll.vals, before, pivot, value);
    var found := ll.Insert(before, pivot, value, key);
    if !found {
      InsertNearMissing(lists[public].vals, before, pivot, value);
      return Ok(-1), lists;
    }
    lists' := SaveOpened(tx, public, prefix, ll, {key}, lists, others);
    return Ok(ll.size), lists';
  }

  method LSet(tx: Tx, public: Bytes, index: int, value: Bytes, ghost lists: Lists, ghost others: Data)
    returns (r: Result<(), DbError>, ghost lists': Lists)
    requires World(tx.data, lists, others) && IsPublic(public)
    modifies tx
    ensures World(tx.data, lists', others)
    ensures public in others ==> r.Err? && tx.data == old(tx.data) && lists' == lists
    ensures public !in others ==>
      var s := ValsAt(lists, public);
      var i := if index < 0 then index + |s| else index;
      if 0 <= i < |s| then r == Ok(()) && Becomes(lists, lists', public, s[i := value], {}, [])
      else r == Err(KeyNotFound) && lists' == lists && tx.data == old(tx.data)
  {
    hide World, Becomes, IsPublic;
    BecomesSame(lists, public, {}, []);
    var got := Open(tx, public, lists, others);
    OpenFacts(tx.data, lists, others, public);
    if got.Err? {
      return Err(got.error), lists;
    }
    var (prefix, ll) := got.value;
    var i := if index < 0 then index + ll.size else index;
    if i < 0 || i >= ll.size {
      return Err(KeyNotFound), lists;
    }
    ll.SetAt(i, value);
    lists' := SaveOpened(tx, public, prefix, ll, {}, lists, others);
    return Ok(()), lists';
  }

  /** A namespace no list uses and no other entry lies under is unused. */
  lemma FreshIsUnused(data: Data, lists: Lists, others: Data, ns: Bytes)
    requires World(data, lists, others) && IsPrivate(ns)
    requires forall q :: q in lists ==> lists[q].prefix.bytes != ns
    requires forall e :: e in others ==> !IsNodeEntry(ns, e)
    ensures Unused(data, ns)
  {
    forall k: NodeKey ensures NodeEntry(ns, k) !in data {
      var e := NodeEntry(ns, k);
      NodeEntryInjective(ns, k, ns, k);
      if e in data {
        if e in lists {
          assert ListStored(data, e, lists[e]);
          PublicIsNoNode(e, ns);
        } else {
          var p :| p in lists && IsNodeEntry(lists[p].prefix.bytes, e);
          NodeEntryInjective(ns, k, lists[p].prefix.bytes, k);
        }
      }
    }
  }

  lemma StillFresh(data: Data, data': Data, lists: Lists, lists': Lists, others: Data, p: Bytes, v: seq<Bytes>,
                   ns: Bytes)
    requires World(data, lists, others) && World(data', lists', others) && IsPrivate(ns)
    requires Becomes(lists, lists', p, v, {}, []) && Unused(data, ns)
    ensures Unused(data', ns)
  {
    UnusedPrefix(data, lists, others, ns);
    FreshIsUnused(data', lists', others, ns);
  }

  lemma ReverseOne(x: Bytes)
    ensures Reverse([x]) == [x]
  {
  }

  /** The names drawn for the destination are still new once the source has lost its last element. */
  lemma StillDrawn(data: Data, data': Data, lists: Lists, popped: Lists, others: Data, src: Bytes, dst: Bytes,
                   key: NodeKey, id: NodeKey)
    requires World(data, lists, others) && World(data', popped, others) && IsPublic(dst) && src in lists
    requires FreshNames(data, lists, dst, [key], id) && |ValsAt(lists, dst)| + 1 < Pow256(4)
    requires Becomes(lists, popped, src, Popped(ValsAt(lists, src), true), {}, [])
    ensures FreshNames(data', popped, dst, [key], id) && |ValsAt(popped, dst)| + 1 < Pow256(4)
  {
    hide World, IsPublic, FreshNamespace, IsPrivate, Unused;
    FreshNamespaceIsNew(dst, id);
    StillFresh(data, data', lists, popped, others, src, Popped(ValsAt(lists, src), true), FreshNamespace(dst, id));
    if dst in popped {
      forall k | k in popped[dst].keys ensures k in lists[dst].keys { assert k in SetOf(popped[dst].keys); }
    }
  }

  /**
    RPOPLPUSH: the last element of the source goes to the head of the
    destination, which may be the source itself; then it is a rotation. The
    elements of both lists together are conserved, unless the destination is
    no list: then the element has left the source when the command fails.
   */
  method RPopLPush(tx: Tx, src: Bytes, dst: Bytes, key: NodeKey, id: NodeKey, ghost lists: Lists, ghost others: Data)
    returns (r: Result<Option<Bytes>, DbError>, ghost popped: Lists, ghost lists': Lists)
    requires World(tx.data, lists, others) && IsPublic(src) && IsPublic(dst)
    requires FreshNames(tx.data, lists, dst, [key], id) && |ValsAt(lists, dst)| + 1 < Pow256(4)
    modifies tx
    ensures World(tx.data, lists', others)
    ensures src !in lists ==>
      tx.data == old(tx.data) && lists' == lists && (if src in others then r.Err? else r == Ok(None))
    ensures src in lists ==>
      var s := ValsAt(lists, src);
      && s != [] && NonEmpty(popped) && Becomes(lists, popped, src, s[..|s| - 1], {}, [])
      && if dst in others then r.Err? && lists' == popped
         else r == Ok(Last(s)) && Becomes(popped, lists', dst,
           [s[|s| - 1]] + ValsAt(popped, dst), {key}, FreshNamespace(dst, id))
  {
    hide World, IsPublic, FreshNamespace, Becomes, FreshNames, NonEmpty, Reverse;
    OpenFacts(tx.data, lists, others, src);
    ghost var data := tx.data;
    var value;
    value, popped := Pop(tx, src, true, lists, others);
    if value.Err? || value.value.None? {
      return value, popped, popped;
    }
    ghost var s, x := ValsAt(lists, src), value.value.value;
    assert s != [] && x == s[|s| - 1] && Popped(s, true) == s[..|s| - 1];
    hide ValsAt, Popped, First, Last;
    WorldNonEmpty(tx.data, popped, others);
    StillDrawn(data, tx.data, lists, popped, others, src, dst, key, id);
    var pushed;
    pushed, lists' := Push(tx, dst, [value.value.value], false, false, [key], id, popped, others);
    if pushed.Err? {
      return Err(pushed.error), popped, lists';
    }
    ReverseOne(x);
    assert SetOf([key]) == {key};
    return Ok(value.value), popped, lists';
  }
}
