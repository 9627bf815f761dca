/** The element entries of compound values: clearing them and moving them to another prefix. */
module Elements {
  import opened ByteStrings
  import opened Store
  import opened Namespace
  import opened LinkedList
  import opened ListStore
  import opened ListWalk

  const SCORE: Bytes := [COLON, 115, 99, 111, 114, 101, COLON]
  const MEMBER: Bytes := [COLON, 109, 101, 109, 98, 101, 114, COLON]

  /** The prefixes the elements of a value live under; list nodes are found by walking the chain instead. */
  function ElementPrefixes(kind: Byte, prefix: Bytes): seq<Bytes> {
    if kind == TYPE_SET || kind == TYPE_HASH || kind == TYPE_STREAM || kind == TYPE_BLOOM then [prefix + [0]]
    else if kind == TYPE_SORTED_SET then [prefix + SCORE, prefix + MEMBER]
    else []
  }

  /** Whether values of this type keep entries besides the public one. */
  predicate HasElements(kind: Byte) {
    kind == TYPE_LIST || kind == TYPE_SET || kind == TYPE_SORTED_SET
      || kind == TYPE_HASH || kind == TYPE_STREAM || kind == TYPE_BLOOM
  }

  /** The suffixes the entries of a value may have. */
  predicate InFamily(kind: Byte, s: Bytes) {
    if kind == TYPE_LIST then |s| == 1 + KEY_LENGTH && s[0] == COLON
    else if kind == TYPE_SORTED_SET then SCORE <= s || MEMBER <= s
    else HasElements(kind) && [0] <= s
  }

  // ---- One prefix --------------------------------------------------------

  /** The keys under a prefix, as the store's iterator yields them. */
  method PrefixKeys(tx: Tx, prefix: Bytes) returns (keys: seq<Bytes>)
    ensures Distinct(keys) && forall e :: e in keys <==> e in tx.data && prefix <= e
  {
    var todo := set e | e in tx.data && prefix <= e;
    keys := [];
    while todo != {}
      invariant Distinct(keys) && forall e :: e in keys ==> e !in todo
      invariant forall e :: e in keys || e in todo <==> e in tx.data && prefix <= e
      decreases |todo|
    {
      var e :| e in todo;
      keys, todo := keys + [e], todo - {e};
    }
  }

  /** Everything under the prefix is gone and nothing else has changed. */
  ghost predicate Cleared(data: Data, data': Data, prefix: Bytes) {
    forall e :: Lookup(data', e) == if prefix <= e then None else Lookup(data, e)
  }

  method ClearPrefix(tx: Tx, prefix: Bytes)
    modifies tx
    ensures Cleared(old(tx.data), tx.data, prefix)
  {
    var keys := PrefixKeys(tx, prefix);
    for i := 0 to |keys|
      invariant forall e :: Lookup(tx.data, e) == if e in keys[..i] then None else Lookup(old(tx.data), e)
    {
      tx.Delete(keys[i]);
      assert keys[..i + 1] == keys[..i] + [keys[i]];
    }
    assert keys[..|keys|] == keys;
  }

  function Bare(item: Item): Item { Item(item.value, item.meta, None) }

  /** The entry that `e`, under `to`, has come from. */
  function Origin(e: Bytes, from: Bytes, to: Bytes): Bytes { if to <= e then from + e[|to|..] else e }

  /** Everything under `from` now lies under `to`. */
  ghost predicate Rekeyed(data: Data, data': Data, from: Bytes, to: Bytes, e: Bytes) {
    Lookup(data', e) ==
      if from <= e then None
      else if to <= e && Origin(e, from, to) in data then Some(Bare(data[Origin(e, from, to)]))
      else Lookup(data, e)
  }

  /** The same while only the entries of `done` have moved. */
  ghost predicate PartRekeyed(data: Data, data': Data, from: Bytes, to: Bytes, done: seq<Bytes>, e: Bytes) {
    Lookup(data', e) ==
      if e in done then None
      else if to <= e && Origin(e, from, to) in done
        && Origin(e, from, to) in data then Some(Bare(data[Origin(e, from, to)]))
      else Lookup(data, e)
  }

  lemma RekeyStep(data: Data, before: Data, after: Data, from: Bytes, to: Bytes, done: seq<Bytes>, k: Bytes)
    requires Apart(from, to) && from <= k && k in data && k !in done && forall e :: e in done ==> from <= e
    requires forall e :: PartRekeyed(data, before, from, to, done, e)
    requires after == before[to + k[|from|..] := Bare(data[k])] - {k}
    ensures forall e :: PartRekeyed(data, after, from, to, done + [k], e)
  {
    Comparable(from, to, k);
    assert PartRekeyed(data, before, from, to, done, k);
    var place := to + k[|from|..];
    forall e ensures PartRekeyed(data, after, from, to, done + [k], e) {
      assert PartRekeyed(data, before, from, to, done, e);
      Comparable(from, to, e);
      assert k == from + k[|from|..] && Origin(place, from, to) == k;
      if to <= e { assert e == to + e[|to|..]; }
      if Origin(e, from, to) == k && to <= e { assert e[|to|..] == k[|from|..]; }
    }
  }

  method MovePrefix(tx: Tx, from: Bytes, to: Bytes)
    modifies tx
    ensures forall e :: !(from <= e) && !(to <= e) ==> Lookup(tx.data, e) == Lookup(old(tx.data), e)
    ensures Apart(from, to) ==> forall e :: Rekeyed(old(tx.data), tx.data, from, to, e)
  {
    hide PartRekeyed, Rekeyed;
    var keys := PrefixKeys(tx, from);
    ghost var data := tx.data;
    var moved: seq<(Bytes, Item)> := [];
    for i := 0 to |keys|
      invariant |moved| == i && forall j :: 0 <= j < i ==> keys[j] in data && moved[j] == (keys[j], data[keys[j]])
    {
      assert keys[i] in keys;
      moved := moved + [(keys[i], tx.data[keys[i]])];
    }
    PartRekeyedStart(data, from, to);
    for i := 0 to |keys|
      invariant forall e :: !(from <= e) && !(to <= e) ==> Lookup(tx.data, e) == Lookup(data, e)
      invariant Apart(from, to) ==> forall e :: PartRekeyed(data, tx.data, from, to, keys[..i], e)
    {
      var (key, item) := moved[i];
      assert keys[..i + 1] == keys[..i] + [keys[i]] && key in keys && forall e :: e in keys[..i] ==> e in keys;
      ghost var before := tx.data;
      tx.Set(to + key[|from|..], Item(item.value, item.meta, None));
      tx.Delete(key);
      if Apart(from, to) { RekeyStep(data, before, tx.data, from, to, keys[..i], key); }
    }
    if Apart(from, to) { PartRekeyedEnd(data, tx.data, from, to, keys); }
  }

  lemma PartRekeyedStart(data: Data, from: Bytes, to: Bytes)
    ensures forall e :: PartRekeyed(data, data, from, to, [], e)
  {
  }

  lemma PartRekeyedEnd(data: Data, data': Data, from: Bytes, to: Bytes, keys: seq<Bytes>)
    requires Apart(from, to) && (forall e :: e in keys <==> e in data && from <= e)
    requires forall e :: PartRekeyed(data, data', from, to, keys[..|keys|], e)
    ensures forall e :: Rekeyed(data, data', from, to, e)
  {
    assert keys[..|keys|] == keys;
    forall e ensures Rekeyed(data, data', from, to, e) {
      assert PartRekeyed(data, data', from, to, keys[..|keys|], e);
      Comparable(from, to, e);
      if to <= e { assert from <= Origin(e, from, to); }
    }
  }

  // ---- All the elements of a value ---------------------------------------

  /** Everything under the prefix is an element of the value at `public`; a list is the chain `keys`. */
  ghost predicate Tidy(data: Data, public: Bytes, kind: Byte, prefix: Bytes, keys: seq<NodeKey>, vals: seq<Bytes>) {
    && (forall e :: e in data && prefix <= e ==> InFamily(kind, e[|prefix|..]) && data[e].expiry.None?)
    && (kind == TYPE_LIST ==>
      Chained(data, public, prefix, keys, vals) && forall k: NodeKey :: NodeEntry(prefix, k) in data ==> k in keys)
  }

  ghost predicate Under(ps: seq<Bytes>, i: nat, e: Bytes) { exists j :: 0 <= j < i <= |ps| && ps[j] <= e }

  lemma UnderNext(ps: seq<Bytes>, i: nat, e: Bytes)
    requires i < |ps|
    ensures Under(ps, i + 1, e) <==> Under(ps, i, e) || ps[i] <= e
  {
    if j :| 0 <= j < i + 1 && ps[j] <= e { assert j < i ==> Under(ps, i, e); }
    if j :| 0 <= j < i && ps[j] <= e { assert Under(ps, i + 1, e); }
  }

  lemma PrefixSplit(p: Bytes, x: Bytes, e: Bytes)
    ensures p + x <= e <==> p <= e && x <= e[|p|..]
  {
    if p + x <= e {
      assert (p + x)[..|p|] == p == e[..|p|] && (p + x)[|p|..] == x;
      assert e[|p|..][..|x|] == e[..|p| + |x|][|p|..];
    }
    if p <= e && x <= e[|p|..] {
      assert e[..|p| + |x|] == e[..|p|] + e[|p|..][..|x|];
    }
  }

  /** The element prefixes cover exactly the entries of the family. */
  lemma ElementPrefixesCover(kind: Byte, prefix: Bytes, e: Bytes)
    requires kind != TYPE_LIST
    ensures var ps := ElementPrefixes(kind, prefix);
      Under(ps, |ps|, e) <==> prefix <= e && InFamily(kind, e[|prefix|..])
  {
    var ps := ElementPrefixes(kind, prefix);
    PrefixSplit(prefix, [0], e);
    PrefixSplit(prefix, SCORE, e);
    PrefixSplit(prefix, MEMBER, e);
    if |ps| > 0 { UnderNext(ps, 0, e); }
    if |ps| > 1 { UnderNext(ps, 1, e); }
  }

  /** List nodes are the entries of the list family. */
  lemma NodeFamily(prefix: Bytes, e: Bytes)
    ensures IsNodeEntry(prefix, e) <==> prefix <= e && InFamily(TYPE_LIST, e[|prefix|..])
  {
    PrefixSplit(prefix, [COLON], e);
  }

  method ClearElements(tx: Tx, public: Bytes, prefix: Bytes, meta: Byte, ghost keys: seq<NodeKey>,
                       ghost vals: seq<Bytes>)
    returns (r: Result<(), DbError>)
    modifies tx
    ensures forall e :: !(prefix <= e) ==> Lookup(tx.data, e) == Lookup(old(tx.data), e)
    ensures !HasElements(BaseType(meta)) ==> r == Ok(()) && tx.data == old(tx.data)
    ensures Tidy(old(tx.data), public, BaseType(meta), prefix, keys, vals) ==>
      r == Ok(()) && Cleared(old(tx.data), tx.data, prefix)
  {
    var kind := BaseType(meta);
    ghost var data := tx.data;
    if kind == TYPE_LIST {
      r := DeleteNodes(tx, public, prefix, keys, vals);
      ListCleared(data, tx.data, public, prefix, keys, vals);
      return;
    }
    var ps := ElementPrefixes(kind, prefix);
    for i := 0 to |ps|
      invariant i == 0 ==> tx.data == data
      invariant forall e :: Lookup(tx.data, e) == if Under(ps, i, e) then None else Lookup(data, e)
    {
      forall e ensures Under(ps, i + 1, e) <==> Under(ps, i, e) || ps[i] <= e { UnderNext(ps, i, e); }
      ClearPrefix(tx, ps[i]);
    }
    forall e ensures Under(ps, |ps|, e) <==> prefix <= e && InFamily(kind, e[|prefix|..]) {
      ElementPrefixesCover(kind, prefix, e);
    }
    return Ok(());
  }

  lemma ListCleared(data: Data, data': Data, public: Bytes, prefix: Bytes, keys: seq<NodeKey>, vals: seq<Bytes>)
    requires SameOutside(data, data', prefix, prefix)
    ensures forall e :: !(prefix <= e) ==> Lookup(data', e) == Lookup(data, e)
    ensures Tidy(data, public, TYPE_LIST, prefix, keys, vals) && NodesGone(data, data', prefix, keys) ==>
      Cleared(data, data', prefix)
  {
    forall e ensures IsNodeEntry(prefix, e) <==> prefix <= e && InFamily(TYPE_LIST, e[|prefix|..]) {
      NodeFamily(prefix, e);
    }
    if Tidy(data, public, TYPE_LIST, prefix, keys, vals) && NodesGone(data, data', prefix, keys) {
      forall e ensures Lookup(data', e) == if prefix <= e then None else Lookup(data, e) {
        if IsNodeEntry(prefix, e) {
          var k := NodeEntryShape(prefix, e);
        }
      }
    }
  }

  /** The entry `e` once everything under `from` has moved under `to`, where there was nothing. */
  ghost predicate Transferred(data: Data, data': Data, from: Bytes, to: Bytes, e: Bytes) {
    Lookup(data', e) == if from <= e then None else Lookup(data, Origin(e, from, to))
  }

  /** The same while only the entries under the first `i` of the prefixes `fs` have moved. */
  ghost predicate PartTransferred(data: Data, data': Data, from: Bytes, to: Bytes, fs: seq<Bytes>, i: nat, e: Bytes) {
    Lookup(data', e) ==
      if Under(fs, i, e) then None
      else if to <= e && Under(fs, i, Origin(e, from, to)) then Lookup(data, Origin(e, from, to))
      else Lookup(data, e)
  }

  /** Whether the elements under `from` can move: all have the value's family, and nothing is in the way. */
  ghost predicate Movable(data: Data, from: Bytes, to: Bytes) {
    && Apart(from, to)
    && (forall e :: e in data ==> !(to <= e))
    && (forall e :: e in data && from <= e ==> data[e].expiry.None?)
  }

  lemma OriginSuffix(e: Bytes, from: Bytes, to: Bytes, x: Bytes)
    requires to + x <= e
    ensures to <= e && Origin(e, from + x, to + x) == Origin(e, from, to) && from + x <= Origin(e, from, to)
  {
    PrefixSplit(to, x, e);
    assert e[|to|..] == x + e[|to| + |x|..];
    assert from + e[|to|..] == (from + x) + e[|to| + |x|..];
  }

  lemma TransferStep(data: Data, before: Data, after: Data, from: Bytes, to: Bytes, fs: seq<Bytes>, i: nat, x: Bytes,
                     e: Bytes)
    requires Movable(data, from, to) && i < |fs| && fs[i] == from + x
    requires forall j :: 0 <= j < |fs| ==> from <= fs[j] && (j != i ==> Apart(fs[j], fs[i]))
    requires forall e :: PartTransferred(data, before, from, to, fs, i, e)
    requires Rekeyed(before, after, from + x, to + x, e)
    ensures PartTransferred(data, after, from, to, fs, i + 1, e)
  {
    var o, f := Origin(e, from, to), fs[i];
    assert PartTransferred(data, before, from, to, fs, i, e) && PartTransferred(data, before, from, to, fs, i, o);
    UnderNext(fs, i, e);
    UnderNext(fs, i, o);
    Comparable(from, to, e);
    Comparable(from, to, o);
    PrefixSplit(from, x, e);
    PrefixSplit(from, x, o);
    PrefixSplit(to, x, e);
    if to + x <= e { OriginSuffix(e, from, to, x); }
    if to <= e { assert o[|from|..] == e[|to|..]; }
    UnderFrom(fs, i, from, e);
    UnderFrom(fs, i, from, o);
    if f <= o { NotUnder(fs, i, o); }
  }

  lemma UnderFrom(fs: seq<Bytes>, i: nat, from: Bytes, e: Bytes)
    requires forall j :: 0 <= j < |fs| ==> from <= fs[j]
    ensures Under(fs, i, e) ==> from <= e
  {
    if j :| 0 <= j < i <= |fs| && fs[j] <= e {
      assert from <= fs[j];
      assert e[..|from|] == fs[j][..|from|];
    }
  }

  lemma NotUnder(fs: seq<Bytes>, i: nat, e: Bytes)
    requires i < |fs| && fs[i] <= e && forall j :: 0 <= j < |fs| && j != i ==> Apart(fs[j], fs[i])
    ensures !Under(fs, i, e)
  {
    forall j | 0 <= j < i ensures !(fs[j] <= e) {
      assert Apart(fs[j], fs[i]);
      Comparable(fs[j], fs[i], e);
    }
  }

  /** The part of an element prefix after the value's own prefix. */
  function FamilyPart(kind: Byte, i: nat): Bytes {
    if kind != TYPE_SORTED_SET then [0] else if i == 0 then SCORE else MEMBER
  }

  lemma ElementPrefixParts(kind: Byte, prefix: Bytes)
    ensures var ps := ElementPrefixes(kind, prefix);
      forall i :: 0 <= i < |ps| ==>
        && ps[i] == prefix + FamilyPart(kind, i) && prefix <= ps[i]
        && forall j :: 0 <= j < |ps| && j != i ==> Apart(ps[j], ps[i])
  {
    if kind == TYPE_SORTED_SET {
      assert (prefix + SCORE)[|prefix| + 1] != (prefix + MEMBER)[|prefix| + 1];
    }
  }

  lemma PartsApart(from: Bytes, to: Bytes, x: Bytes)
    requires Apart(from, to)
    ensures Apart(from + x, to + x)
  {
    var p, q := from + x, to + x;
    Comparable(from, to, p);
    Comparable(from, to, q);
    PrefixSplit(from, x, q);
    PrefixSplit(to, x, p);
    assert from <= p && to <= q;
  }

  /** Moves the elements of the value at `public` from one prefix to another. */
  method MoveElements(tx: Tx, public: Bytes, kind: Byte, from: Bytes, to: Bytes, ghost keys: seq<NodeKey>,
                      ghost vals: seq<Bytes>)
    returns (r: Result<(), DbError>)
    modifies tx
    ensures forall e :: !(from <= e) && !(to <= e) ==> Lookup(tx.data, e) == Lookup(old(tx.data), e)
    ensures !HasElements(kind) ==> r == Ok(()) && tx.data == old(tx.data)
    ensures Tidy(old(tx.data), public, kind, from, keys, vals) && Movable(old(tx.data), from, to) ==>
      r == Ok(()) && forall e :: Transferred(old(tx.data), tx.data, from, to, e)
  {
    ghost var data := tx.data;
    if kind == TYPE_LIST {
      r := MoveNodes(tx, public, from, to, keys, vals);
      ListTransferred(data, tx.data, public, from, to, keys, vals);
      return;
    }
    var fs, ts := ElementPrefixes(kind, from), ElementPrefixes(kind, to);
    ElementPrefixParts(kind, from);
    ElementPrefixParts(kind, to);
    hide Movable, PartTransferred, Rekeyed, Transferred, Apart;
    PartTransferredStart(data, from, to, fs);
    for i := 0 to |fs|
      invariant i == 0 ==> tx.data == data
      invariant forall e :: !(from <= e) && !(to <= e) ==> Lookup(tx.data, e) == Lookup(data, e)
      invariant Movable(data, from, to) ==> forall e :: PartTransferred(data, tx.data, from, to, fs, i, e)
    {
      ghost var before, x := tx.data, FamilyPart(kind, i);
      MovePrefix(tx, fs[i], ts[i]);
      forall e | !(from <= e) && !(to <= e) ensures Lookup(tx.data, e) == Lookup(data, e) {
        PrefixSplit(from, x, e);
        PrefixSplit(to, x, e);
      }
      if Movable(data, from, to) {
        MovableApart(data, from, to);
        PartsApart(from, to, x);
        ghost var next := i + 1;
        forall e ensures PartTransferred(data, tx.data, from, to, fs, next, e) {
          TransferStep(data, before, tx.data, from, to, fs, i, x, e);
        }
      }
    }
    if Tidy(data, public, kind, from, keys, vals) && Movable(data, from, to) {
      forall e ensures Transferred(data, tx.data, from, to, e) {
        TransferEnd(data, tx.data, public, kind, from, to, keys, vals, e);
      }
    }
    return Ok(());
  }

  lemma MovableApart(data: Data, from: Bytes, to: Bytes)
    requires Movable(data, from, to)
    ensures Apart(from, to)
  {
  }

  lemma PartTransferredStart(data: Data, from: Bytes, to: Bytes, fs: seq<Bytes>)
    ensures forall e :: PartTransferred(data, data, from, to, fs, 0, e)
  {
  }

  lemma TransferEnd(data: Data, data': Data, public: Bytes, kind: Byte, from: Bytes, to: Bytes, keys: seq<NodeKey>,
                    vals: seq<Bytes>, e: Bytes)
    requires Tidy(data, public, kind, from, keys, vals) && Movable(data, from, to) && kind != TYPE_LIST
    requires var fs := ElementPrefixes(kind, from); PartTransferred(data, data', from, to, fs, |fs|, e)
    ensures Transferred(data, data', from, to, e)
  {
    var o := Origin(e, from, to);
    ElementPrefixesCover(kind, from, e);
    ElementPrefixesCover(kind, from, o);
    Comparable(from, to, e);
    if to <= e { assert from <= o; }
  }

  lemma ListTransferred(data: Data, data': Data, public: Bytes, from: Bytes, to: Bytes, keys: seq<NodeKey>,
                        vals: seq<Bytes>)
    requires SameOutside(data, data', from, to)
    ensures forall e :: !(from <= e) && !(to <= e) ==> Lookup(data', e) == Lookup(data, e)
    ensures (&& Tidy(data, public, TYPE_LIST, from, keys, vals) && Movable(data, from, to)
             && Moving(data, data', from, to, keys, |keys|)) ==> forall e :: Transferred(data, data', from, to, e)
  {
    forall e ensures !(from <= e) && !(to <= e) ==> Lookup(data', e) == Lookup(data, e) {
      NodeFamily(from, e);
      NodeFamily(to, e);
    }
    if Tidy(data, public, TYPE_LIST, from, keys, vals)
      && Movable(data, from, to) && Moving(data, data', from, to, keys, |keys|) {
      forall e ensures Transferred(data, data', from, to, e) {
        ListTransferredAt(data, data', public, from, to, keys, vals, e);
      }
    }
  }

  lemma ListTransferredAt(data: Data, data': Data, public: Bytes, from: Bytes, to: Bytes, keys: seq<NodeKey>,
                          vals: seq<Bytes>, e: Bytes)
    requires SameOutside(data, data', from, to)
    requires Tidy(data, public, TYPE_LIST, from, keys, vals) && Movable(data, from, to)
      && Moving(data, data', from, to, keys, |keys|)
    ensures Transferred(data, data', from, to, e)
  {
    assert keys[..|keys|] == keys;
    NodeFamily(from, e);
    NodeFamily(to, e);
    Comparable(from, to, e);
    var o := Origin(e, from, to);
    NodeFamily(from, o);
    if from <= e {
      if IsNodeEntry(from, e) { var k := NodeEntryShape(from, e); }
    } else if to <= e {
      assert o[|from|..] == e[|to|..] && from <= o;
      if IsNodeEntry(to, e) {
        var k := NodeEntryShape(to, e);
        assert o == NodeEntry(from, k);
      }
    }
  }
}
