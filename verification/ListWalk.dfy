/**
  Deleting and re-keying the nodes of a list by walking its chain from the
  sentinel. Both touch the nodes of the prefix only, on every store, and on a
  stored list they treat every node.
 */
module ListWalk {
  import opened ByteStrings
  import opened Store
  import opened Namespace
  import opened LinkedList
  import opened ListStore

  /** The sentinel at `public` and the nodes under `prefix` form the chain `keys`. */
  ghost predicate Chained(data: Data, public: Bytes, prefix: Bytes, keys: seq<NodeKey>, vals: seq<Bytes>) {
    && keys != [] && NodesStored(data, prefix, keys, vals)
    && ReadSentinel(Lookup(data, public)) == Ok((|keys|, keys[0], keys[|keys| - 1]))
  }

  ghost predicate SameOutside(data: Data, data': Data, prefix: Bytes, prefix': Bytes) {
    forall e: Bytes :: !IsNodeEntry(prefix, e) && !IsNodeEntry(prefix', e) ==> Lookup(data', e) == Lookup(data, e)
  }

  /** The nodes of `prefix` once those of `gone` are deleted. */
  ghost predicate NodesGone(data: Data, data': Data, prefix: Bytes, gone: seq<NodeKey>) {
    forall k: NodeKey :: Lookup(data', NodeEntry(prefix, k)) == if k in gone then None
      else Lookup(data, NodeEntry(prefix, k))
  }

  /** The nodes of `prefix` once those of `copied` have come from another one. */
  ghost predicate NodesCopied(data: Data, data': Data, source: Bytes, prefix: Bytes, copied: seq<NodeKey>) {
    forall k: NodeKey ::
      Lookup(data', NodeEntry(prefix, k)) == Lookup(data, NodeEntry(if k in copied then source else prefix, k))
  }

  /** The node the walk is at, and the one after it. */
  lemma NodeOnWalk(data: Data, prefix: Bytes, keys: seq<NodeKey>, vals: seq<Bytes>, i: nat)
    requires NodesStored(data, prefix, keys, vals) && i < |keys|
    ensures keys[i] != NO_LINK && keys[i] !in keys[..i]
    ensures var item := Lookup(data, NodeEntry(prefix, keys[i]));
      && item.Some? && item.value.expiry.None? && |item.value.value| >= 2 * KEY_LENGTH
      && item.value.value[|item.value.value| - KEY_LENGTH..] == if i + 1 < |keys| then keys[i + 1] else NO_LINK
  {
    assert NodeStored(data, prefix, keys, vals, i);
    var n := NodeAt(keys, vals, i);
    assert EncodeNode(n)[|n.value| + KEY_LENGTH..] == LinkBytes(n.next);
  }

  /** What the walk is at after `i` nodes. */
  ghost function WalkedTo(keys: seq<NodeKey>, i: nat): NodeKey { if i < |keys| then keys[i] else NO_LINK }

  /** What the walk finds there, once the nodes before it are gone. */
  lemma WalkAt(data: Data, now: Data, prefix: Bytes, keys: seq<NodeKey>, vals: seq<Bytes>, i: nat)
    requires NodesStored(data, prefix, keys, vals) && i < |keys| && NodesGone(data, now, prefix, keys[..i])
    ensures WalkedTo(keys, i) == keys[i] && keys[i] != NO_LINK
    ensures var item := Lookup(now, NodeEntry(prefix, keys[i]));
      && item.Some? && |item.value.value| >= 2 * KEY_LENGTH
      && item.value.value[|item.value.value| - KEY_LENGTH..] == WalkedTo(keys, i + 1)
    ensures NodesGone(data, now - {NodeEntry(prefix, keys[i])}, prefix, keys[..i + 1])
  {
    NodeOnWalk(data, prefix, keys, vals, i);
    GoneStep(data, now, now - {NodeEntry(prefix, keys[i])}, prefix, keys[..i], keys[i]);
    assert keys[..i + 1] == keys[..i] + [keys[i]];
  }

  lemma GoneStep(data: Data, before: Data, after: Data, prefix: Bytes, gone: seq<NodeKey>, k: NodeKey)
    requires NodesGone(data, before, prefix, gone) && after == before - {NodeEntry(prefix, k)}
    ensures NodesGone(data, after, prefix, gone + [k])
    ensures forall e: Bytes :: !IsNodeEntry(prefix, e) ==> Lookup(after, e) == Lookup(before, e)
  {
    forall l: NodeKey
      ensures Lookup(after, NodeEntry(prefix, l)) == if l in gone + [k] then None
        else Lookup(data, NodeEntry(prefix, l))
    {
      NodeEntryInjective(prefix, l, prefix, k);
    }
    NodeEntryInjective(prefix, k, prefix, k);
  }

  method DeleteNodes(tx: Tx, public: Bytes, prefix: Bytes, ghost keys: seq<NodeKey>, ghost vals: seq<Bytes>)
    returns (r: Result<(), DbError>)
    modifies tx
    ensures SameOutside(old(tx.data), tx.data, prefix, prefix)
    ensures Chained(old(tx.data), public, prefix, keys, vals) ==>
      r == Ok(()) && NodesGone(old(tx.data), tx.data, prefix, keys)
  {
    var s := ReadSentinel(tx.Get(public));
    if s.Err? {
      return Err(s.error);
    }
    var (size, head, _) := s.value;
    ghost var data := tx.data;
    ghost var good := Chained(tx.data, public, prefix, keys, vals);
    assert good ==> NodesStored(data, prefix, keys, vals) && size == |keys| && head == keys[0];
    var current: NodeKey := head;
    assert keys[..0] == [];
    hide Chained, NodesStored, SameOutside, NodesGone, NodeEntry, WalkedTo;
    SameOutsideSame(data, prefix);
    NoneGone(data, prefix);
    for i := 0 to size
      invariant SameOutside(data, tx.data, prefix, prefix)
      invariant good ==> NodesGone(data, tx.data, prefix, keys[..i]) && current == WalkedTo(keys, i)
    {
      if good {
        WalkAt(data, tx.data, prefix, keys, vals, i);
      }
      if current == NO_LINK {
        break;
      }
      var e := NodeEntry(prefix, current);
      var item := tx.Get(e);
      if item.None? || |item.value.value| < 2 * KEY_LENGTH {
        return Err(KeyNotFound);
      }
      var value := item.value.value;
      DropOutside(data, tx.data, prefix, current);
      tx.Delete(e);
      current := value[|value| - KEY_LENGTH..];
    }
    assert keys[..|keys|] == keys;
    return Ok(());
  }

  lemma SameOutsideSame(data: Data, prefix: Bytes)
    ensures SameOutside(data, data, prefix, prefix)
  {
  }

  lemma NoneGone(data: Data, prefix: Bytes)
    ensures NodesGone(data, data, prefix, [])
  {
  }

  lemma DropOutside(data: Data, before: Data, prefix: Bytes, k: NodeKey)
    requires SameOutside(data, before, prefix, prefix)
    ensures SameOutside(data, before - {NodeEntry(prefix, k)}, prefix, prefix)
  {
    NodeEntryInjective(prefix, k, prefix, k);
  }

  lemma CopyStep(data: Data, before: Data, after: Data, from: Bytes, to: Bytes, done: seq<NodeKey>, k: NodeKey)
    requires from != to && NodesGone(data, before, from, done) && NodesCopied(data, before, from, to, done)
      && k !in done
    requires Lookup(before, NodeEntry(from, k)).Some?
    requires after == before[NodeEntry(to, k) := before[NodeEntry(from, k)]] - {NodeEntry(from, k)}
    ensures NodesGone(data, after, from, done + [k]) && NodesCopied(data, after, from, to, done + [k])
  {
    forall l: NodeKey
      ensures Lookup(after, NodeEntry(from, l)) == if l in done + [k] then None else Lookup(data, NodeEntry(from, l))
      ensures Lookup(after, NodeEntry(to, l)) == Lookup(data, NodeEntry(if l in done + [k] then from else to, l))
    {
      NodeEntryInjective(from, l, from, k);
      NodeEntryInjective(from, l, to, k);
      NodeEntryInjective(to, l, from, k);
      NodeEntryInjective(to, l, to, k);
    }
  }

  /** The store once the first `i` nodes of the chain have moved. */
  ghost predicate Moving(data: Data, data': Data, from: Bytes, to: Bytes, keys: seq<NodeKey>, i: nat) {
    i <= |keys| && NodesGone(data, data', from, keys[..i]) && NodesCopied(data, data', from, to, keys[..i])
  }

  lemma MoveStart(data: Data, from: Bytes, to: Bytes, keys: seq<NodeKey>)
    ensures Moving(data, data, from, to, keys, 0)
  {
  }

  lemma MoveStep(data: Data, before: Data, from: Bytes, to: Bytes, keys: seq<NodeKey>, vals: seq<Bytes>, i: nat)
    requires NodesStored(data, from, keys, vals) && i < |keys| && from != to && Moving(data, before, from, to, keys, i)
    ensures var e := NodeEntry(from, keys[i]);
      var item := Lookup(before, e);
      && keys[i] != NO_LINK && item.Some? && NextLink(item) == Ok(if i + 1 < |keys| then keys[i + 1] else NO_LINK)
      && Moving(data, before[NodeEntry(to, keys[i]) := Item(item.value.value, item.value.meta, None)] - {e},
        from, to, keys, i + 1)
  {
    NodeOnWalk(data, from, keys, vals, i);
    var item := before[NodeEntry(from, keys[i])];
    assert item == Item(item.value, item.meta, None);
    CopyStep(data, before, before[NodeEntry(to, keys[i]) := item] - {NodeEntry(from, keys[i])}, from, to, keys[..i],
             keys[i]);
    assert keys[..i + 1] == keys[..i] + [keys[i]];
  }

  lemma OutsideStep(data: Data, before: Data, from: Bytes, to: Bytes, k: NodeKey, item: Item)
    requires SameOutside(data, before, from, to)
    ensures SameOutside(data, before[NodeEntry(to, k) := item] - {NodeEntry(from, k)}, from, to)
  {
    NodeEntryInjective(from, k, from, k);
    NodeEntryInjective(to, k, to, k);
  }

  /** The key of the node after the one an entry holds. */
  function NextLink(item: Option<Item>): Result<NodeKey, DbError> {
    if item.None? || |item.value.value| < 2 * KEY_LENGTH then Err(KeyNotFound)
    else Ok(item.value.value[|item.value.value| - KEY_LENGTH..])
  }

  /** Re-keys one node and tells the next. */
  method MoveNode(tx: Tx, from: Bytes, to: Bytes, current: NodeKey, ghost data: Data)
    returns (r: Result<NodeKey, DbError>)
    requires SameOutside(data, tx.data, from, to)
    modifies tx
    ensures SameOutside(data, tx.data, from, to)
    ensures var item := Lookup(old(tx.data), NodeEntry(from, current));
      && r == NextLink(item)
      && tx.data == if r.Err? then old(tx.data)
                    else old(tx.data)[NodeEntry(to, current) := Item(item.value.value, item.value.meta, None)]
                         - {NodeEntry(from, current)}
  {
    hide SameOutside, NodeEntry;
    var e := NodeEntry(from, current);
    var item := tx.Get(e);
    r := NextLink(item);
    if r.Ok? {
      OutsideStep(data, tx.data, from, to, current, Item(item.value.value, item.value.meta, None));
      tx.Set(NodeEntry(to, current), Item(item.value.value, item.value.meta, None));
      tx.Delete(e);
    }
  }

  method MoveNodes(tx: Tx, public: Bytes, from: Bytes, to: Bytes, ghost keys: seq<NodeKey>, ghost vals: seq<Bytes>)
    returns (r: Result<(), DbError>)
    modifies tx
    ensures SameOutside(old(tx.data), tx.data, from, to)
    ensures Chained(old(tx.data), public, from, keys, vals) && from != to ==>
      r == Ok(()) && Moving(old(tx.data), tx.data, from, to, keys, |keys|)
  {
    hide Moving, NodeEntry, NodesStored;
    var s := ReadSentinel(tx.Get(public));
    if s.Err? {
      return Err(s.error);
    }
    var (size, head, _) := s.value;
    ghost var data := tx.data;
    ghost var good := Chained(tx.data, public, from, keys, vals) && from != to;
    var current: NodeKey := head;
    MoveStart(data, from, to, keys);
    assert SameOutside(data, data, from, to);
    hide SameOutside, ReadSentinel, NextLink;
    for i := 0 to size
      invariant SameOutside(data, tx.data, from, to)
      invariant good ==>
        size == |keys| && Moving(data, tx.data, from, to, keys, i) && current == if i < |keys| then keys[i] else NO_LINK
    {
      if good { MoveStep(data, tx.data, from, to, keys, vals, i); }
      if current == NO_LINK {
        break;
      }
      var next := MoveNode(tx, from, to, current, data);
      if next.Err? {
        return Err(next.error);
      }
      current := next.value;
    }
    return Ok(());
  }

  /** A list moved to an unused prefix, with its sentinel re-written for it, is the same list. */
  lemma MovedList(data: Data, moved: Data, public: Bytes, c: Chain, target: Bytes, to: ElementPrefix,
                  expiry: Option<int>)
    requires Stored(data, public, c) && Unused(data, to.bytes) && c.prefix.bytes != to.bytes && |to.bytes| < Pow256(4)
    requires to.explicit || to.bytes == LegacyPrefix(target)
    requires NodesCopied(data, moved, c.prefix.bytes, to.bytes, c.keys) && !IsNodeEntry(to.bytes, target)
    ensures var (value, meta) := EncodeSentinel(SentinelPayload(|c.keys|, First(c.keys), Last(c.keys)), TYPE_LIST, to);
      Stored(moved[target := Item(value, meta, expiry)], target, Chain(to, c.keys, c.vals, expiry))
  {
    var payload := SentinelPayload(|c.keys|, First(c.keys), Last(c.keys));
    var (value, meta) := EncodeSentinel(payload, TYPE_LIST, to);
    SentinelRoundTrip(payload, TYPE_LIST, to, expiry, LegacyPrefix(target));
    var data' := moved[target := Item(value, meta, expiry)];
    forall k: NodeKey
      ensures Lookup(data', NodeEntry(to.bytes, k)) == if k in c.keys then Lookup(data, NodeEntry(c.prefix.bytes, k))
        else None
    {
      NodeEntryInjective(to.bytes, k, to.bytes, k);
    }
    forall i | 0 <= i < |c.keys| ensures NodeStored(data', to.bytes, c.keys, c.vals, i) {
      assert NodeStored(data, c.prefix.bytes, c.keys, c.vals, i);
    }
  }
}
