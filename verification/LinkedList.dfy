/**
  The doubly linked list a Redis list is loaded into: nodes under random keys,
  with head and tail and a log of the nodes taken out. Every operation keeps the
  chain well formed and refines an operation on sequences. The list never looks
  inside its keys and values, so they are type parameters here.
 */
module LinkedList {
  import opened ByteStrings

  datatype ListNode<K, V> = ListNode(key: K, value: V, prev: Option<K>, next: Option<K>)

  type Nodes<K(==), V> = map<K, ListNode<K, V>>

  // ---- Well-formed chains ------------------------------------------------

  function First<T>(s: seq<T>): Option<T> { if s == [] then None else Some(s[0]) }

  function Last<T>(s: seq<T>): Option<T> { if s == [] then None else Some(s[|s| - 1]) }

  ghost function SetOf<T>(s: seq<T>): set<T> { set x | x in s }

  ghost predicate Distinct<T>(s: seq<T>) {
    forall i, j :: 0 <= i < j < |s| ==> s[i] != s[j]
  }

  /** The node at position `i` of a chain, with the links the position calls for. */
  function NodeAt<K, V>(chain: seq<K>, vals: seq<V>, i: nat): ListNode<K, V>
    requires i < |chain| == |vals|
  {
    ListNode(chain[i], vals[i],
             if i == 0 then None else Some(chain[i - 1]),
             if i + 1 == |chain| then None else Some(chain[i + 1]))
  }

  ghost predicate InPlace<K, V>(nodes: Nodes<K, V>, chain: seq<K>, vals: seq<V>, i: nat)
    requires i < |chain| == |vals|
  {
    chain[i] in nodes && nodes[chain[i]] == NodeAt(chain, vals, i)
  }

  /** The nodes are exactly those of `chain`, each once, linked both ways in that order, holding `vals`. */
  ghost predicate LinksOK<K, V>(nodes: Nodes<K, V>, chain: seq<K>, vals: seq<V>) {
    && |chain| == |vals|
    && Distinct(chain)
    && (forall k :: k in nodes ==> k in chain) && (forall k :: k in chain ==> k in nodes)
    && (forall i :: 0 <= i < |chain| ==> InPlace(nodes, chain, vals, i))
  }

  function SetNext<K, V>(nodes: Nodes<K, V>, at: Option<K>, next: Option<K>): Nodes<K, V> {
    if at.Some? && at.value in nodes then nodes[at.value := nodes[at.value].(next := next)] else nodes
  }

  function SetPrev<K, V>(nodes: Nodes<K, V>, at: Option<K>, prev: Option<K>): Nodes<K, V> {
    if at.Some? && at.value in nodes then nodes[at.value := nodes[at.value].(prev := prev)] else nodes
  }

  function RemoveAt<T>(s: seq<T>, i: nat): (r: seq<T>)
    requires i < |s|
    ensures |r| == |s| - 1 && forall j :: 0 <= j < |r| ==> r[j] == if j < i then s[j] else s[j + 1]
  {
    s[..i] + s[i + 1..]
  }

  function InsertAt<T>(s: seq<T>, i: nat, x: T): (r: seq<T>)
    requires i <= |s|
    ensures |r| == |s| + 1
      && forall j :: 0 <= j < |r| ==> r[j] == if j < i then s[j] else if j == i then x else s[j - 1]
  {
    s[..i] + [x] + s[i..]
  }

  /** The nodes left when `node` is taken out and its neighbours are joined. */
  function Unlinked<K, V>(nodes: Nodes<K, V>, node: ListNode<K, V>): (r: Nodes<K, V>)
    ensures r.Keys == nodes.Keys - {node.key}
  {
    SetPrev(SetNext(nodes, node.prev, node.next), node.next, node.prev) - {node.key}
  }

  /** The nodes once a fresh one is placed between two neighbours. */
  function Placed<K, V>(nodes: Nodes<K, V>, node: ListNode<K, V>): Nodes<K, V> {
    SetPrev(SetNext(nodes[node.key := node], node.prev, Some(node.key)), node.next, Some(node.key))
  }

  lemma RemoveDistinct<T>(s: seq<T>, i: nat)
    requires i < |s| && Distinct(s)
    ensures Distinct(RemoveAt(s, i)) && s[i] !in RemoveAt(s, i)
    ensures forall x :: x in RemoveAt(s, i) <==> x in s && x != s[i]
  {
    forall x | x in s && x != s[i] ensures x in RemoveAt(s, i) {
      var j :| 0 <= j < |s| && s[j] == x;
      assert RemoveAt(s, i)[if j < i then j else j - 1] == x;
    }
  }

  lemma InsertDistinct<T>(s: seq<T>, i: nat, x: T)
    requires i <= |s| && Distinct(s) && x !in s
    ensures Distinct(InsertAt(s, i, x))
    ensures forall y :: y in InsertAt(s, i, x) <==> y in s || y == x
  {
    var r := InsertAt(s, i, x);
    assert r[i] == x;
    forall y | y in s ensures y in r {
      var j :| 0 <= j < |s| && s[j] == y;
      assert r[if j < i then j else j + 1] == y;
    }
  }

  lemma UnlinkLocal<K, V>(nodes: Nodes<K, V>, chain: seq<K>, vals: seq<V>, i: nat, j: nat)
    requires |chain| == |vals| && i < |chain| && j < |chain| && j != i
    requires chain[j] != chain[i]
    requires i > 0 ==> InPlace(nodes, chain, vals, i - 1) && (j != i - 1 ==> chain[j] != chain[i - 1])
    requires i + 1 < |chain| ==> InPlace(nodes, chain, vals, i + 1) && (j != i + 1 ==> chain[j] != chain[i + 1])
    requires 0 < i && i + 1 < |chain| ==> chain[i - 1] != chain[i + 1]
    requires InPlace(nodes, chain, vals, j)
    ensures var nodes' := Unlinked(nodes, NodeAt(chain, vals, i));
      InPlace(nodes', RemoveAt(chain, i), RemoveAt(vals, i), if j < i then j else j - 1)
  {
    var prev, next := NodeAt(chain, vals, i).prev, NodeAt(chain, vals, i).next;
    var nodes1 := SetNext(nodes, prev, next);
    var nodes2 := SetPrev(nodes1, next, prev);
    assert nodes1[chain[j]] == if j + 1 == i then nodes[chain[j]].(next := next) else nodes[chain[j]];
    assert nodes2[chain[j]] == if j == i + 1 then nodes1[chain[j]].(prev := prev) else nodes1[chain[j]];
  }

  lemma UnlinkOne<K, V>(nodes: Nodes<K, V>, chain: seq<K>, vals: seq<V>, i: nat, j: nat)
    requires LinksOK(nodes, chain, vals) && i < |chain| && j < |chain| - 1
    ensures var chain', vals', nodes' := RemoveAt(chain, i), RemoveAt(vals, i), Unlinked(nodes, NodeAt(chain, vals, i));
      InPlace(nodes', chain', vals', j)
  {
    UnlinkLocal(nodes, chain, vals, i, if j < i then j else j + 1);
  }

  /** Joining the neighbours of one node and dropping it leaves a well-formed chain without it. */
  lemma Unlink<K, V>(nodes: Nodes<K, V>, chain: seq<K>, vals: seq<V>, i: nat)
    requires LinksOK(nodes, chain, vals) && i < |chain|
    ensures LinksOK(Unlinked(nodes, NodeAt(chain, vals, i)), RemoveAt(chain, i), RemoveAt(vals, i))
  {
    RemoveDistinct(chain, i);
    var chain', vals', nodes' := RemoveAt(chain, i), RemoveAt(vals, i), Unlinked(nodes, NodeAt(chain, vals, i));
    forall j | 0 <= j < |chain'| ensures InPlace(nodes', chain', vals', j) {
      UnlinkOne(nodes, chain, vals, i, j);
    }
  }

  lemma LinkLocal<K, V>(nodes: Nodes<K, V>, chain: seq<K>, vals: seq<V>, i: nat, key: K, value: V, j: nat)
    requires |chain| == |vals| && i <= |chain| && j < |chain| && chain[j] != key
    requires i > 0 ==> InPlace(nodes, chain, vals, i - 1) && (j != i - 1 ==> chain[j] != chain[i - 1])
    requires i < |chain| ==> InPlace(nodes, chain, vals, i) && (j != i ==> chain[j] != chain[i])
    requires 0 < i < |chain| ==> chain[i - 1] != chain[i]
    requires i > 0 ==> chain[i - 1] != key
    requires i < |chain| ==> chain[i] != key
    requires InPlace(nodes, chain, vals, j)
    ensures var chain', vals' := InsertAt(chain, i, key), InsertAt(vals, i, value);
      var nodes' := Placed(nodes, NodeAt(chain', vals', i));
      && InPlace(nodes', chain', vals', if j < i then j else j + 1)
      && InPlace(nodes', chain', vals', i)
  {
    var node := NodeAt(InsertAt(chain, i, key), InsertAt(vals, i, value), i);
    var nodes1 := SetNext(nodes[key := node], node.prev, Some(key));
    var nodes2 := SetPrev(nodes1, node.next, Some(key));
    assert nodes1[chain[j]] == if j + 1 == i then nodes[chain[j]].(next := Some(key)) else nodes[chain[j]];
    assert nodes2[chain[j]] == if j == i then nodes1[chain[j]].(prev := Some(key)) else nodes1[chain[j]];
  }

  lemma LinkOne<K, V>(nodes: Nodes<K, V>, chain: seq<K>, vals: seq<V>, i: nat, key: K, value: V, j: nat)
    requires LinksOK(nodes, chain, vals) && i <= |chain| && key !in nodes && j <= |chain|
    ensures var chain', vals' := InsertAt(chain, i, key), InsertAt(vals, i, value);
      InPlace(Placed(nodes, NodeAt(chain', vals', i)), chain', vals', j)
  {
    if chain != [] {
      LinkLocal(nodes, chain, vals, i, key, value, if j < i then j else if j > i then j - 1 else 0);
    }
  }

  /** Placing a fresh node between two neighbours leaves a well-formed chain with it. */
  lemma Link<K, V>(nodes: Nodes<K, V>, chain: seq<K>, vals: seq<V>, i: nat, key: K, value: V)
    requires LinksOK(nodes, chain, vals) && i <= |chain| && key !in nodes
    ensures var chain', vals' := InsertAt(chain, i, key), InsertAt(vals, i, value);
      LinksOK(Placed(nodes, NodeAt(chain', vals', i)), chain', vals')
  {
    var chain', vals' := InsertAt(chain, i, key), InsertAt(vals, i, value);
    var nodes' := Placed(nodes, NodeAt(chain', vals', i));
    InsertDistinct(chain, i, key);
    forall j | 0 <= j < |chain'| ensures InPlace(nodes', chain', vals', j) {
      LinkOne(nodes, chain, vals, i, key, value, j);
    }
  }

  /** Updating one node commutes with dropping or adding another. */
  lemma Commute<K, V>(nodes: Nodes<K, V>, key: K, node: ListNode<K, V>, at: Option<K>, link: Option<K>)
    requires at != Some(key)
    ensures SetPrev(nodes - {key}, at, link) == SetPrev(nodes, at, link) - {key}
    ensures SetNext(nodes - {key}, at, link) == SetNext(nodes, at, link) - {key}
    ensures SetPrev(nodes, at, link)[key := node] == SetPrev(nodes[key := node], at, link)
    ensures SetNext(nodes, at, link)[key := node] == SetNext(nodes[key := node], at, link)
  {
  }

  /** Taking the first node out, as the pop at the head does it. */
  lemma UnlinkHead<K, V>(nodes: Nodes<K, V>, chain: seq<K>, vals: seq<V>)
    requires LinksOK(nodes, chain, vals) && chain != []
    ensures chain[0] in nodes && nodes[chain[0]] == NodeAt(chain, vals, 0)
    ensures LinksOK(SetPrev(nodes - {chain[0]}, NodeAt(chain, vals, 0).next, None), chain[1..], vals[1..])
  {
    Unlink(nodes, chain, vals, 0);
    assert InPlace(nodes, chain, vals, 0);
    Commute(nodes, chain[0], NodeAt(chain, vals, 0), NodeAt(chain, vals, 0).next, None);
    assert RemoveAt(chain, 0) == chain[1..] && RemoveAt(vals, 0) == vals[1..];
  }

  lemma ChainLengths<K, V>(nodes: Nodes<K, V>, chain: seq<K>, vals: seq<V>)
    requires LinksOK(nodes, chain, vals)
    ensures |chain| == |vals|
  {
  }

  lemma KeysWithoutTail<K, V>(nodes: Nodes<K, V>, chain: seq<K>, vals: seq<V>)
    requires LinksOK(nodes, chain, vals) && chain != []
    ensures var i := |chain| - 1;
      SetNext(nodes - {chain[i]}, NodeAt(chain, vals, i).prev, None).Keys == nodes.Keys - {chain[i]}
  {
    UnlinkTail(nodes, chain, vals);
  }

  /** Taking the last node out, as the pop at the tail does it. */
  lemma UnlinkTail<K, V>(nodes: Nodes<K, V>, chain: seq<K>, vals: seq<V>)
    requires LinksOK(nodes, chain, vals) && chain != []
    ensures var i := |chain| - 1;
      && chain[i] in nodes && nodes[chain[i]] == NodeAt(chain, vals, i)
      && LinksOK(SetNext(nodes - {chain[i]}, NodeAt(chain, vals, i).prev, None), chain[..i], vals[..i])
  {
    var i := |chain| - 1;
    Unlink(nodes, chain, vals, i);
    assert InPlace(nodes, chain, vals, i);
    Commute(nodes, chain[i], NodeAt(chain, vals, i), NodeAt(chain, vals, i).prev, None);
    assert RemoveAt(chain, i) == chain[..i] && RemoveAt(vals, i) == vals[..i];
  }

  /** Putting a node before the first one, as a push at the head does it. */
  lemma LinkHead<K, V>(nodes: Nodes<K, V>, chain: seq<K>, vals: seq<V>, key: K, value: V)
    requires LinksOK(nodes, chain, vals) && key !in nodes
    ensures LinksOK(SetPrev(nodes, First(chain), Some(key))[key := ListNode(key, value, None, First(chain))],
      [key] + chain, [value] + vals)
  {
    Link(nodes, chain, vals, 0, key, value);
    Commute(nodes, key, ListNode(key, value, None, First(chain)), First(chain), Some(key));
    assert InsertAt(chain, 0, key) == [key] + chain && InsertAt(vals, 0, value) == [value] + vals;
  }

  /** Putting a node after the last one, as a push at the tail does it. */
  lemma LinkTail<K, V>(nodes: Nodes<K, V>, chain: seq<K>, vals: seq<V>, key: K, value: V)
    requires LinksOK(nodes, chain, vals) && key !in nodes
    ensures LinksOK(SetNext(nodes, Last(chain), Some(key))[key := ListNode(key, value, Last(chain), None)],
      chain + [key], vals + [value])
  {
    Link(nodes, chain, vals, |chain|, key, value);
    Commute(nodes, key, ListNode(key, value, Last(chain), None), Last(chain), Some(key));
    assert InsertAt(chain, |chain|, key) == chain + [key] && InsertAt(vals, |chain|, value) == vals + [value];
  }

  // ---- What the removals mean on sequences -------------------------------

  /** `s` without its first `n` occurrences of `v`. */
  function RemoveFirst<T(==)>(s: seq<T>, v: T, n: nat): (r: seq<T>)
    ensures |s| - n <= |r| <= |s|
  {
    if s == [] then []
    else if s[0] == v && n > 0 then RemoveFirst(s[1..], v, n - 1)
    else [s[0]] + RemoveFirst(s[1..], v, n)
  }

  /** `s` without its last `n` occurrences of `v`. */
  function RemoveLast<T(==)>(s: seq<T>, v: T, n: nat): (r: seq<T>)
    ensures |s| - n <= |r| <= |s|
  {
    if s == [] then []
    else
      var init, last := s[..|s| - 1], s[|s| - 1];
      if last == v && n > 0 then RemoveLast(init, v, n - 1) else RemoveLast(init, v, n) + [last]
  }

  /** The elements at the first `k` positions that stay when the first `n` occurrences of `v` go. */
  ghost function Staying<T>(s: seq<T>, v: T, n: nat, k: nat): seq<T>
    requires k <= |s|
  {
    if k == 0 then []
    else Staying(s, v, n, k - 1) + (if s[k - 1] != v || multiset(s[..k - 1])[v] >= n then [s[k - 1]] else [])
  }

  lemma {:induction false} RemoveFirstNext<T>(s: seq<T>, x: T, v: T, n: nat)
    ensures RemoveFirst(s + [x], v, n) ==
      RemoveFirst(s, v, n) + (if x != v || multiset(s)[v] >= n then [x] else [])
    decreases |s|
  {
    if s != [] {
      var rest := s[1..];
      assert (s + [x])[1..] == rest + [x] && s == [s[0]] + rest;
      RemoveFirstNext(rest, x, v, if s[0] == v && n > 0 then n - 1 else n);
      assert multiset(s)[v] == multiset(rest)[v] + (if s[0] == v then 1 else 0);
    }
  }

  lemma {:induction false} StayingUpTo<T>(s: seq<T>, v: T, n: nat, k: nat)
    requires k <= |s|
    ensures RemoveFirst(s[..k], v, n) == Staying(s, v, n, k)
  {
    if k > 0 {
      StayingUpTo(s, v, n, k - 1);
      assert s[..k] == s[..k - 1] + [s[k - 1]];
      RemoveFirstNext(s[..k - 1], s[k - 1], v, n);
    }
  }

  /** An element goes exactly when it equals `v` and fewer than `n` elements before it do. */
  lemma RemoveFirstExact<T>(s: seq<T>, v: T, n: nat)
    ensures RemoveFirst(s, v, n) == Staying(s, v, n, |s|)
  {
    StayingUpTo(s, v, n, |s|);
    assert s[..|s|] == s;
  }

  /** The elements of `s` that are in `keys`, in order. */
  function Filter<T(==)>(s: seq<T>, keys: set<T>): seq<T> {
    if s == [] then [] else (if s[0] in keys then [s[0]] else []) + Filter(s[1..], keys)
  }

  lemma {:induction false} FilterAll<T>(s: seq<T>, rest: seq<T>, keys: set<T>)
    requires forall x :: x in s ==> x in keys
    ensures Filter(s + rest, keys) == s + Filter(rest, keys)
  {
    if s == [] {
      assert s + rest == rest;
    } else {
      assert (s + rest)[1..] == s[1..] + rest;
      FilterAll(s[1..], rest, keys);
    }
  }

  lemma {:induction false} FilterWithout<T>(s: seq<T>, keys: set<T>, x: T)
    requires x !in s
    ensures Filter(s, keys - {x}) == Filter(s, keys)
  {
    if s != [] { FilterWithout(s[1..], keys, x); }
  }

  /** A cursor moving right from `at`, taking out up to `n` occurrences of `v`, turns `s` into `target`. */
  ghost predicate CutsRight<T>(s: seq<T>, at: nat, v: T, n: nat, target: seq<T>)
    requires at <= |s|
    decreases |s| - at
  {
    if at == |s| then s == target
    else if s[at] == v && n > 0 then CutsRight(RemoveAt(s, at), at, v, n - 1, target)
    else CutsRight(s, at + 1, v, n, target)
  }

  lemma {:induction false} CutsRightIsRemoveFirst<T>(s: seq<T>, at: nat, v: T, n: nat)
    requires at <= |s|
    ensures CutsRight(s, at, v, n, s[..at] + RemoveFirst(s[at..], v, n))
    decreases |s| - at
  {
    if at < |s| {
      assert s[at..][1..] == s[at + 1..] && s[..at] + [s[at]] == s[..at + 1];
      if s[at] == v && n > 0 {
        CutsRightIsRemoveFirst(RemoveAt(s, at), at, v, n - 1);
        assert RemoveAt(s, at)[..at] == s[..at] && RemoveAt(s, at)[at..] == s[at + 1..];
      } else {
        CutsRightIsRemoveFirst(s, at + 1, v, n);
        assert s[..at] + RemoveFirst(s[at..], v, n) == s[..at + 1] + RemoveFirst(s[at + 1..], v, n);
      }
    }
  }

  /** The same with a cursor just after position `at`, moving left. */
  ghost predicate CutsLeft<T>(s: seq<T>, at: nat, v: T, n: nat, target: seq<T>)
    requires at <= |s|
    decreases at
  {
    if at == 0 || n == 0 then s == target
    else if s[at - 1] == v then CutsLeft(RemoveAt(s, at - 1), at - 1, v, n - 1, target)
    else CutsLeft(s, at - 1, v, n, target)
  }

  lemma CutsLeftEnd<T>(s: seq<T>, at: nat, v: T, n: nat, target: seq<T>)
    requires at <= |s| && CutsLeft(s, at, v, n, target) && (n == 0 || at == 0)
    ensures s == target
  {
  }

  lemma {:induction false} CutsLeftIsRemoveLast<T>(s: seq<T>, at: nat, v: T, n: nat)
    requires at <= |s|
    ensures CutsLeft(s, at, v, n, RemoveLast(s[..at], v, n) + s[at..])
    decreases at
  {
    if n == 0 {
      RemoveNone(s[..at], v);
    } else if at > 0 {
      assert s[..at][..at - 1] == s[..at - 1] && [s[at - 1]] + s[at..] == s[at - 1..];
      if s[at - 1] == v {
        CutsLeftIsRemoveLast(RemoveAt(s, at - 1), at - 1, v, n - 1);
        assert RemoveAt(s, at - 1)[..at - 1] == s[..at - 1] && RemoveAt(s, at - 1)[at - 1..] == s[at..];
      } else {
        CutsLeftIsRemoveLast(s, at - 1, v, n);
        assert RemoveLast(s[..at], v, n) + s[at..] == RemoveLast(s[..at - 1], v, n) + s[at - 1..];
      }
    }
  }

  lemma {:induction false} RemoveNone<T>(s: seq<T>, v: T)
    ensures RemoveLast(s, v, 0) == s
  {
    if s != [] { RemoveNone(s[..|s| - 1], v); }
  }

  /** The first and the last element of `s` that are in `keys`. */
  function FirstIn<T(==)>(s: seq<T>, keys: set<T>): Option<T> {
    if s == [] then None else if s[0] in keys then Some(s[0]) else FirstIn(s[1..], keys)
  }

  function LastIn<T(==)>(s: seq<T>, keys: set<T>): Option<T> {
    if s == [] then None else if s[|s| - 1] in keys then Some(s[|s| - 1]) else LastIn(s[..|s| - 1], keys)
  }

  lemma {:induction false} FilterEnds<T>(s: seq<T>, keys: set<T>)
    ensures FirstIn(s, keys) == First(Filter(s, keys)) && LastIn(s, keys) == Last(Filter(s, keys))
  {
    if s != [] {
      var n := |s| - 1;
      FilterEnds(s[1..], keys);
      FilterEnds(s[..n], keys);
      FilterLast(s, keys);
    }
  }

  lemma {:induction false} FilterLast<T>(s: seq<T>, keys: set<T>)
    requires s != []
    ensures Filter(s, keys) == Filter(s[..|s| - 1], keys) + (if s[|s| - 1] in keys then [s[|s| - 1]] else [])
  {
    if |s| > 1 {
      var init, last := s[..|s| - 1], s[|s| - 1];
      assert s[1..][..|s| - 2] == init[1..] && s[1..][|s| - 2] == last && init[0] == s[0];
      FilterLast(s[1..], keys);
      var first, end := if s[0] in keys then [s[0]] else [], if last in keys then [last] else [];
      assert Filter(s, keys) == first + (Filter(init[1..], keys) + end);
      assert Filter(init, keys) == first + Filter(init[1..], keys);
    }
  }

  /** Right to left over `keys`, down to position `at`: what is left of them is `chain`. */
  ghost predicate Survivors<T>(keys: seq<T>, at: nat, chain: seq<T>, live: set<T>) {
    at <= |keys| && at <= |chain| && chain[..at] == keys[..at] && chain[at..] == Filter(keys[at..], live)
  }

  lemma SurvivorsStart<K, V>(nodes: Nodes<K, V>, keys: seq<K>, vals: seq<V>)
    requires LinksOK(nodes, keys, vals)
    ensures Survivors(keys, |keys|, keys, nodes.Keys) && |keys| == |vals| && Distinct(keys)
  {
    assert keys[|keys|..] == [];
  }

  lemma SurvivorsStep<T>(keys: seq<T>, at: nat, chain: seq<T>, live: set<T>)
    requires 0 < at && Survivors(keys, at, chain, live) && Distinct(keys) && keys[at - 1] in live
    ensures chain[at - 1] == keys[at - 1]
    ensures Survivors(keys, at - 1, chain, live)
    ensures Survivors(keys, at - 1, RemoveAt(chain, at - 1), live - {keys[at - 1]})
  {
    var k := keys[at - 1];
    assert chain[at - 1] == chain[..at][at - 1] == keys[..at][at - 1];
    assert keys[..at - 1] == keys[..at][..at - 1] == chain[..at][..at - 1] == chain[..at - 1];
    assert keys[at - 1..][1..] == keys[at..] && chain[at - 1..] == [k] + chain[at..];
    FilterWithout(keys[at..], live, k);
    assert RemoveAt(chain, at - 1)[at - 1..] == chain[at..] && RemoveAt(chain, at - 1)[..at - 1] == chain[..at - 1];
  }

  lemma SurvivorsEnds<T>(keys: seq<T>, at: nat, chain: seq<T>, live: set<T>)
    requires Survivors(keys, at, chain, live) && forall k :: k in chain ==> k in live
    ensures FirstIn(keys, live) == First(chain) && LastIn(keys, live) == Last(chain)
  {
    FilterAll(keys[..at], keys[at..], live);
    assert keys == keys[..at] + keys[at..] && chain == chain[..at] + chain[at..];
    FilterEnds(keys, live);
  }

  /** A scan of `chain` has got to position `at`: its first key, the key before and the key at the position. */
  ghost predicate AtCursor<K>(chain: seq<K>, at: nat, first: Option<K>, prev: Option<K>, cur: Option<K>) {
    && at <= |chain|
    && first == (if at == 0 then None else Some(chain[0]))
    && prev == (if at == 0 then None else Some(chain[at - 1]))
    && cur == (if at == |chain| then None else Some(chain[at]))
  }

  /**
    Part of the way through a trim: `c` is relinked, the nodes of `rest` still have
    their values, nothing else is left.
   */
  ghost predicate Trimming<K, V>(nodes: Nodes<K, V>, c: seq<K>, w: seq<V>, rest: seq<K>, restVals: seq<V>) {
    && |c| == |w| && |rest| == |restVals| && Distinct(c + rest)
    && (forall k :: k in nodes ==> k in c || k in rest)
    && (forall i :: 0 <= i < |c| ==> InPlace(nodes, c, w, i))
    && (forall i :: 0 <= i < |rest| ==> HasValue(nodes, rest[i], restVals[i]))
  }

  ghost predicate HasValue<K, V>(nodes: Nodes<K, V>, k: K, v: V) {
    k in nodes && nodes[k].key == k && nodes[k].value == v
  }

  lemma TrimStart<K, V>(nodes: Nodes<K, V>, chain: seq<K>, vals: seq<V>)
    requires LinksOK(nodes, chain, vals)
    ensures Trimming(nodes, [], [], chain, vals)
  {
    assert [] + chain == chain;
    forall i | 0 <= i < |chain| ensures HasValue(nodes, chain[i], vals[i]) { assert InPlace(nodes, chain, vals, i); }
  }

  lemma TrimEnd<K, V>(nodes: Nodes<K, V>, c: seq<K>, w: seq<V>)
    requires Trimming(nodes, c, w, [], [])
    ensures LinksOK(nodes, c, w)
  {
    assert c + [] == c;
    forall k | k in c ensures k in nodes {
      var i :| 0 <= i < |c| && c[i] == k;
      assert InPlace(nodes, c, w, i);
    }
  }

  lemma TrimDrop<K, V>(nodes: Nodes<K, V>, c: seq<K>, w: seq<V>, rest: seq<K>, restVals: seq<V>)
    requires Trimming(nodes, c, w, rest, restVals) && rest != []
    ensures Trimming(nodes - {rest[0]}, c, w, rest[1..], restVals[1..])
  {
    var all := c + rest;
    assert RemoveAt(all, |c|) == c + rest[1..] && all[|c|] == rest[0];
    RemoveDistinct(all, |c|);
    forall i | 0 <= i < |c| ensures InPlace(nodes - {rest[0]}, c, w, i) {
      assert all[i] == c[i] && InPlace(nodes, c, w, i);
    }
    forall i | 0 <= i < |rest| - 1 ensures HasValue(nodes - {rest[0]}, rest[1..][i], restVals[1..][i]) {
      assert HasValue(nodes, rest[i + 1], restVals[i + 1]) && all[|c| + i + 1] == rest[i + 1];
    }
  }

  /** The nodes once the next survivor is linked after the last one. */
  function Relinked<K, V>(nodes: Nodes<K, V>, k: K, prev: Option<K>): Nodes<K, V>
    requires k in nodes
  {
    SetNext(nodes[k := nodes[k].(prev := prev, next := None)], prev, Some(k))
  }

  lemma TrimKeep<K, V>(nodes: Nodes<K, V>, c: seq<K>, w: seq<V>, rest: seq<K>, restVals: seq<V>)
    requires Trimming(nodes, c, w, rest, restVals) && rest != []
    ensures rest[0] in nodes
    ensures Trimming(Relinked(nodes, rest[0], Last(c)), c + [rest[0]], w + [restVals[0]], rest[1..], restVals[1..])
  {
    var k, c', w' := rest[0], c + [rest[0]], w + [restVals[0]];
    assert HasValue(nodes, rest[0], restVals[0]);
    var nodes', all := Relinked(nodes, k, Last(c)), c + rest;
    assert c' + rest[1..] == all;
    assert nodes'.Keys == nodes.Keys && all[|c|] == k;
    if c != [] {
      assert all[|c| - 1] == c[|c| - 1] && InPlace(nodes, c, w, |c| - 1);
    }
    forall i | 0 <= i < |c'| ensures InPlace(nodes', c', w', i) {
      if i < |c| {
        assert all[i] == c[i] && InPlace(nodes, c, w, i);
      }
    }
    forall i | 0 <= i < |rest| - 1 ensures HasValue(nodes', rest[1..][i], restVals[1..][i]) {
      assert HasValue(nodes, rest[i + 1], restVals[i + 1]) && all[|c| + i + 1] == rest[i + 1];
      assert c != [] ==> all[|c| - 1] == c[|c| - 1];
    }
  }

  /** The part of `s` between `start` and `stop` that lies before position `i`. */
  function KeptPart<T>(s: seq<T>, start: nat, stop: nat, i: nat): seq<T>
    requires start <= stop < |s| && i <= |s|
  {
    if i <= start then [] else if i <= stop then s[start..i] else s[start..stop + 1]
  }

  lemma KeptStep<T>(s: seq<T>, start: nat, stop: nat, i: nat)
    requires start <= stop < |s| && i < |s|
    ensures KeptPart(s, start, stop, i + 1) ==
      if i < start || i > stop then KeptPart(s, start, stop, i) else KeptPart(s, start, stop, i) + [s[i]]
    ensures s[i..][1..] == s[i + 1..] && s[i..] != [] && s[i..][0] == s[i]
  {
  }

  /** A trim that has passed the first `i` keys: the kept ones form the chain `c`. */
  ghost predicate Kept<K, V>(nodes: Nodes<K, V>, c: seq<K>, w: seq<V>, keys: seq<K>, vals: seq<V>, start: nat,
                             stop: nat, i: nat) {
    && start <= stop < |keys| == |vals| && i <= |keys|
    && Trimming(nodes, c, w, keys[i..], vals[i..])
    && c == KeptPart(keys, start, stop, i) && w == KeptPart(vals, start, stop, i)
  }

  lemma KeptStart<K, V>(nodes: Nodes<K, V>, keys: seq<K>, vals: seq<V>, start: nat, stop: nat)
    requires LinksOK(nodes, keys, vals) && start <= stop < |keys|
    ensures Kept(nodes, [], [], keys, vals, start, stop, 0)
  {
    TrimStart(nodes, keys, vals);
    assert keys[0..] == keys && vals[0..] == vals;
  }

  lemma KeptDrop<K, V>(nodes: Nodes<K, V>, c: seq<K>, w: seq<V>, keys: seq<K>, vals: seq<V>, start: nat, stop: nat,
                       i: nat)
    requires Kept(nodes, c, w, keys, vals, start, stop, i) && i < |keys| && (i < start || i > stop)
    ensures Kept(nodes - {keys[i]}, c, w, keys, vals, start, stop, i + 1)
  {
    hide Trimming, KeptPart;
    KeptStep(keys, start, stop, i);
    KeptStep(vals, start, stop, i);
    TrimDrop(nodes, c, w, keys[i..], vals[i..]);
  }

  lemma KeptLink<K, V>(nodes: Nodes<K, V>, c: seq<K>, w: seq<V>, keys: seq<K>, vals: seq<V>, start: nat, stop: nat,
                       i: nat)
    requires Kept(nodes, c, w, keys, vals, start, stop, i) && start <= i <= stop
    ensures i < |keys| == |vals| && keys[i] in nodes && Relinked(nodes, keys[i], Last(c)).Keys == nodes.Keys
    ensures Kept(Relinked(nodes, keys[i], Last(c)), c + [keys[i]], w + [vals[i]], keys, vals, start, stop, i + 1)
  {
    KeptStep(keys, start, stop, i);
    KeptStep(vals, start, stop, i);
    TrimKeep(nodes, c, w, keys[i..], vals[i..]);
  }

  lemma KeptEnd<K, V>(nodes: Nodes<K, V>, c: seq<K>, w: seq<V>, keys: seq<K>, vals: seq<V>, start: nat, stop: nat)
    requires Kept(nodes, c, w, keys, vals, start, stop, |keys|)
    ensures LinksOK(nodes, c, w) && w == vals[start..stop + 1] && |c| == stop - start + 1
  {
    assert keys[|keys|..] == [] && vals[|keys|..] == [];
    TrimEnd(nodes, c, w);
  }

  function InsertNear<T(==)>(s: seq<T>, before: bool, pivot: T, value: T): seq<T> {
    if s == [] then []
    else if s[0] == pivot then (if before then [value, s[0]] + s[1..] else [s[0], value] + s[1..])
    else [s[0]] + InsertNear(s[1..], before, pivot, value)
  }

  lemma {:induction false} InsertNearAt<T>(s: seq<T>, before: bool, pivot: T, value: T, i: nat)
    requires i < |s| && s[i] == pivot && pivot !in s[..i]
    ensures InsertNear(s, before, pivot, value) == InsertAt(s, if before then i else i + 1, value)
  {
    if i > 0 {
      assert s[0] == s[..i][0] && s[1..][..i - 1] == s[..i][1..];
      assert s[0] != pivot && s == [s[0]] + s[1..];
      InsertNearAt(s[1..], before, pivot, value, i - 1);
      hide InsertAt;
      InsertBehind(s[0], s[1..], if before then i - 1 else i, value);
    } else {
      assert s == [s[0]] + s[1..];
    }
  }

  lemma InsertBehind<T>(x: T, s: seq<T>, i: nat, value: T)
    requires i <= |s|
    ensures [x] + InsertAt(s, i, value) == InsertAt([x] + s, i + 1, value)
  {
  }

  lemma {:induction false} InsertNearMissing<T>(s: seq<T>, before: bool, pivot: T, value: T)
    ensures pivot !in s <==> InsertNear(s, before, pivot, value) == s
  {
    if s != [] && s[0] != pivot { InsertNearMissing(s[1..], before, pivot, value); }
  }

  lemma {:induction false} InsertNearLength<T>(s: seq<T>, before: bool, pivot: T, value: T)
    ensures |InsertNear(s, before, pivot, value)| == if pivot in s then |s| + 1 else |s|
  {
    if s != [] && s[0] != pivot { InsertNearLength(s[1..], before, pivot, value); }
  }

  lemma LinksCommute<K, V>(nodes: Nodes<K, V>, a: Option<K>, next: Option<K>, b: Option<K>, prev: Option<K>)
    ensures SetNext(SetPrev(nodes, b, prev), a, next) == SetPrev(SetNext(nodes, a, next), b, prev)
  {
  }

  /** Placing a fresh node next to a pivot, in the order the neighbours' links are written. */
  function PlacedBy<K, V>(nodes: Nodes<K, V>, before: bool, pivot: ListNode<K, V>,
                          node: ListNode<K, V>): (r: Nodes<K, V>)
    ensures r.Keys == nodes.Keys + {node.key}
  {
    if before then SetPrev(SetNext(nodes[node.key := node], pivot.prev, Some(node.key)),
      Some(pivot.key), Some(node.key))
    else SetNext(SetPrev(nodes[node.key := node], pivot.next, Some(node.key)), Some(pivot.key), Some(node.key))
  }

  lemma InsertEnds<T>(s: seq<T>, i: nat, x: T)
    requires i <= |s|
    ensures First(InsertAt(s, i, x)) == (if i == 0 then Some(x) else First(s))
    ensures Last(InsertAt(s, i, x)) == (if i == |s| then Some(x) else Last(s))
  {
  }

  lemma LinkNear<K, V>(nodes: Nodes<K, V>, chain: seq<K>, vals: seq<V>, i: nat, before: bool, key: K, value: V)
    requires LinksOK(nodes, chain, vals) && i < |chain| && key !in nodes
    ensures chain[i] in nodes && nodes[chain[i]] == NodeAt(chain, vals, i)
    ensures
      var pivot, at := NodeAt(chain, vals, i), if before then i else i + 1;
      var node := ListNode(key, value, if before then pivot.prev else Some(pivot.key),
                           if before then Some(pivot.key) else pivot.next);
      LinksOK(PlacedBy(nodes, before, pivot, node), InsertAt(chain, at, key), InsertAt(vals, at, value))
  {
    var pivot, at := NodeAt(chain, vals, i), if before then i else i + 1;
    assert InPlace(nodes, chain, vals, i) && |chain| == |vals|;
    hide LinksOK;
    Link(nodes, chain, vals, at, key, value);
    NearNode(chain, vals, i, before, key, value);
    hide NodeAt, InsertAt, SetNext, SetPrev;
    var node := NodeAt(InsertAt(chain, at, key), InsertAt(vals, at, value), at);
    LinksCommute(nodes[key := node], node.prev, Some(key), node.next, Some(key));
  }

  lemma NearNode<K, V>(chain: seq<K>, vals: seq<V>, i: nat, before: bool, key: K, value: V)
    requires |chain| == |vals| && i < |chain|
    ensures var pivot, at := NodeAt(chain, vals, i), if before then i else i + 1;
      NodeAt(InsertAt(chain, at, key), InsertAt(vals, at, value), at)
      == ListNode(key, value,
                  if before then pivot.prev else Some(pivot.key),
                  if before then Some(pivot.key) else pivot.next)
  {
  }

  function Reverse<T>(s: seq<T>): (r: seq<T>)
    ensures |r| == |s|
  {
    if s == [] then [] else Reverse(s[1..]) + [s[0]]
  }

  lemma {:induction false} ReverseAt<T>(s: seq<T>, i: nat)
    requires i < |s|
    ensures Reverse(s)[i] == s[|s| - 1 - i]
  {
    if i < |s| - 1 { ReverseAt(s[1..], i); }
  }

  lemma {:induction false} ReverseLast<T>(s: seq<T>, x: T)
    ensures Reverse(s + [x]) == [x] + Reverse(s)
  {
    if s == [] {
      assert (s + [x])[1..] == [];
    } else {
      assert (s + [x])[1..] == s[1..] + [x];
      ReverseLast(s[1..], x);
    }
  }

  lemma KeysAreChain<K, V>(nodes: Nodes<K, V>, chain: seq<K>, vals: seq<V>)
    requires LinksOK(nodes, chain, vals)
    ensures nodes.Keys == SetOf(chain)
  {
  }

  lemma ReplaceValue<K, V>(nodes: Nodes<K, V>, chain: seq<K>, vals: seq<V>, i: nat, value: V)
    requires LinksOK(nodes, chain, vals) && i < |chain| && chain[i] in nodes
    ensures LinksOK(nodes[chain[i] := nodes[chain[i]].(value := value)], chain, vals[i := value])
  {
    var nodes', vals' := nodes[chain[i] := nodes[chain[i]].(value := value)], vals[i := value];
    forall j | 0 <= j < |chain| ensures InPlace(nodes', chain, vals', j) {
      assert InPlace(nodes, chain, vals, j);
    }
  }

  /** Removing from the end is removing from the front of the mirror image. */
  lemma {:induction false} RemoveMirror<T>(s: seq<T>, v: T, n: nat)
    ensures RemoveLast(s, v, n) == Reverse(RemoveFirst(Reverse(s), v, n))
  {
    if s != [] {
      var init, last := s[..|s| - 1], s[|s| - 1];
      assert s == init + [last];
      ReverseLast(init, last);
      assert Reverse(s)[1..] == Reverse(init);
      if last == v && n > 0 {
        RemoveMirror(init, v, n - 1);
      } else {
        RemoveMirror(init, v, n);
        assert ([last] + RemoveFirst(Reverse(init), v, n))[1..] == RemoveFirst(Reverse(init), v, n);
      }
    }
  }

  /** LREM takes out exactly `n` occurrences of `v`, or all there are, and nothing else. */
  lemma {:induction false} RemoveCounts<T>(s: seq<T>, v: T, n: nat)
    ensures var m := if n <= multiset(s)[v] then n else multiset(s)[v];
      multiset(RemoveFirst(s, v, n)) == multiset(s)[v := multiset(s)[v] - m]
  {
    if s != [] {
      assert s == [s[0]] + s[1..];
      if s[0] == v && n > 0 {
        RemoveCounts(s[1..], v, n - 1);
      } else {
        RemoveCounts(s[1..], v, n);
        if n == 0 { RemoveNoneFirst(s[1..], v); }
      }
    }
  }

  lemma {:induction false} RemoveNoneFirst<T>(s: seq<T>, v: T)
    ensures RemoveFirst(s, v, 0) == s
  {
    if s != [] { RemoveNoneFirst(s[1..], v); }
  }

  // ---- The list ----------------------------------------------------------

  /** A list after pushing `values` one by one at an end. */
  ghost function Pushed<T>(s: seq<T>, values: seq<T>, atTail: bool): seq<T> {
    if atTail then s + values else Reverse(values) + s
  }

  lemma PushedNone<K, V>(s: seq<V>, values: seq<V>, keys: seq<K>, atTail: bool)
    ensures Pushed(s, values[..0], atTail) == s && SetOf(keys[..0]) == {}
  {
    assert values[..0] == [] && Reverse<V>([]) == [];
  }

  lemma PushedStep<K, V>(s: seq<V>, values: seq<V>, keys: seq<K>, atTail: bool, i: nat)
    requires |keys| == |values| && i < |values| && Distinct(keys)
    ensures var p := Pushed(s, values[..i], atTail);
      Pushed(s, values[..i + 1], atTail) == if atTail then p + [values[i]] else [values[i]] + p
    ensures SetOf(keys[..i + 1]) == SetOf(keys[..i]) + {keys[i]} && keys[i] !in SetOf(keys[..i])
    ensures keys[i] in keys
  {
    assert values[..i + 1] == values[..i] + [values[i]] && keys[..i + 1] == keys[..i] + [keys[i]];
    ReverseLast(values[..i], values[i]);
  }

  lemma PushedAll<K, V>(s: seq<V>, values: seq<V>, keys: seq<K>, atTail: bool)
    requires |keys| == |values|
    ensures values[..|values|] == values && keys[..|values|] == keys
    ensures Pushed(s, values, atTail) == if atTail then s + values else Reverse(values) + s
  {
  }

  class Linked<K(==), V(==)> {
    var size: nat
    var head: Option<K>
    var tail: Option<K>
    var nodes: Nodes<K, V>
    var removed: seq<K>
    /** The keys and the values of the list, head to tail. */
    ghost var chain: seq<K>
    ghost var vals: seq<V>
    /** The keys the list had when it was loaded. */
    ghost var loaded: set<K>

    ghost predicate Valid()
      reads this
    {
      && LinksOK(nodes, chain, vals)
      && head == First(chain) && tail == Last(chain) && size == |chain|
      && Logged()
    }

    /** Every node that was loaded and is gone is in the log of removed nodes. */
    ghost predicate Logged()
      reads this
    {
      forall k :: k in loaded && k !in nodes ==> k in removed
    }

    constructor ()
      ensures Valid() && vals == [] && loaded == {} && removed == []
    {
      size, head, tail, nodes, removed := 0, None, None, map[], [];
      chain, vals, loaded := [], [], {};
    }

    /** A list as it was loaded: the nodes of `chain`, nothing removed yet. */
    constructor Of(size: nat, head: Option<K>, tail: Option<K>, nodes: Nodes<K, V>, ghost chain: seq<K>,
                   ghost vals: seq<V>)
      ensures this.chain == chain && this.vals == vals && loaded == SetOf(chain)
      ensures LinksOK(nodes, chain, vals) && head == First(chain) && tail == Last(chain) && size == |chain| ==> Valid()
    {
      this.size, this.head, this.tail, this.nodes, this.removed := size, head, tail, nodes, [];
      this.chain, this.vals, this.loaded := chain, vals, SetOf(chain);
    }

    /** The node keys in chain order, head to tail. */
    method OrderedKeys() returns (keys: seq<K>)
      requires Valid()
      ensures keys == chain
    {
      keys := [];
      var cur := head;
      while cur.Some?
        invariant |keys| <= |chain| && keys == chain[..|keys|]
        invariant cur == if |keys| < |chain| then Some(chain[|keys|]) else None
        decreases |chain| - |keys|
      {
        assert InPlace(nodes, chain, vals, |keys|);
        keys := keys + [cur.value];
        cur := nodes[cur.value].next;
      }
    }

    /** Prepends a value under the fresh node key `key`. */
    method AddFirst(value: V, key: K) returns (n: nat)
      requires Valid() && key !in nodes
      modifies this
      ensures Valid() && loaded == old(loaded)
      ensures chain == [key] + old(chain) && vals == [value] + old(vals) && n == |vals|
      ensures nodes.Keys == old(nodes.Keys) + {key}
    {
      LinkHead(nodes, chain, vals, key, value);
      var next := head;
      if next.Some? {
        nodes := SetPrev(nodes, next, Some(key));
      } else {
        tail := Some(key);
      }
      nodes := nodes[key := ListNode(key, value, None, next)];
      head := Some(key);
      size := size + 1;
      chain, vals := [key] + chain, [value] + vals;
      return size;
    }

    /** Appends a value under the fresh node key `key`. */
    method AddLast(value: V, key: K) returns (n: nat)
      requires Valid() && key !in nodes
      modifies this
      ensures Valid() && loaded == old(loaded)
      ensures chain == old(chain) + [key] && vals == old(vals) + [value] && n == |vals|
      ensures nodes.Keys == old(nodes.Keys) + {key}
    {
      LinkTail(nodes, chain, vals, key, value);
      var prev := tail;
      if prev.Some? {
        nodes := SetNext(nodes, prev, Some(key));
      } else {
        head := Some(key);
      }
      nodes := nodes[key := ListNode(key, value, prev, None)];
      tail := Some(key);
      size := size + 1;
      chain, vals := chain + [key], vals + [value];
      return size;
    }

    /** Removes and returns the head element, if any. */
    method RemoveHead() returns (value: Option<V>)
      requires Valid()
      modifies this
      ensures Valid() && loaded == old(loaded)
      ensures value == First(old(vals)) && nodes.Keys <= old(nodes.Keys)
      ensures vals == if value.None? then [] else old(vals)[1..]
    {
      if head.None? {
        return None;
      }
      UnlinkHead(nodes, chain, vals);
      var key := head.value;
      var node := nodes[key];
      nodes, removed, size := SetPrev(nodes - {key}, node.next, None), removed + [key], size - 1;
      head := node.next;
      if head.None? {
        tail := None;
      }
      chain, vals := chain[1..], vals[1..];
      return Some(node.value);
    }

    /** Removes and returns the tail element, if any. */
    method RemoveTail() returns (value: Option<V>)
      requires Valid()
      modifies this
      ensures Valid() && loaded == old(loaded)
      ensures value == Last(old(vals)) && nodes.Keys <= old(nodes.Keys)
      ensures vals == if value.None? then [] else old(vals)[..|old(vals)| - 1]
    {
      hide LinksOK, SetNext;
      if tail.None? {
        assert vals == [] by { ChainLengths(nodes, chain, vals); }
        return None;
      }
      ChainLengths(nodes, chain, vals);
      UnlinkTail(nodes, chain, vals);
      KeysWithoutTail(nodes, chain, vals);
      var key := tail.value;
      var node := nodes[key];
      nodes, removed, size := SetNext(nodes - {key}, node.prev, None), removed + [key], size - 1;
      tail := node.prev;
      if tail.None? {
        head := None;
      }
      chain, vals := chain[..|chain| - 1], vals[..|vals| - 1];
      return Some(node.value);
    }

    /** Removes the first `count` elements equal to `value`, or all of them when `count` is zero. */
    method RemoveMatching(count: nat, value: V) returns (n: nat)
      requires Valid()
      modifies this
      ensures Valid() && loaded == old(loaded)
      ensures vals == RemoveFirst(old(vals), value, if count == 0 then |old(vals)| else count)
      ensures n == |old(vals)| - |vals| && nodes.Keys <= old(nodes.Keys)
    {
      ghost var limit := if count == 0 then |vals| else count;
      ghost var target := RemoveFirst(vals, value, limit);
      CutsRightIsRemoveFirst(vals, 0, value, limit);
      assert vals[0..] == vals && vals[..0] + target == target;
      n := CutFromHead(count, value, limit, target);
    }

    /** Joins the neighbours of the node `k` and takes it out; head and tail are left to the caller. */
    method Detach(k: K, prev: Option<K>, next: Option<K>, ghost c: seq<K>, ghost w: seq<V>, ghost at: nat)
      requires LinksOK(nodes, c, w) && size == |c| && Logged()
      requires at < |c| && c[at] == k && prev == NodeAt(c, w, at).prev && next == NodeAt(c, w, at).next
      modifies this`nodes, this`removed, this`size
      ensures LinksOK(nodes, RemoveAt(c, at), RemoveAt(w, at)) && size == |c| - 1 && Logged()
      ensures nodes.Keys == old(nodes.Keys) - {k}
    {
      Unlink(nodes, c, w, at);
      nodes := SetNext(nodes, prev, next);
      nodes := SetPrev(nodes, next, prev);
      nodes := nodes - {k};
      removed := removed + [k];
      size := size - 1;
    }

    method CutFromHead(count: nat, value: V, ghost limit: nat, ghost target: seq<V>) returns (n: nat)
      requires Valid() && limit == (if count == 0 then |vals| else count) && CutsRight(vals, 0, value, limit, target)
      modifies this
      ensures Valid() && loaded == old(loaded) && vals == target && n == |old(vals)| - |vals|
        && nodes.Keys <= old(nodes.Keys)
    {
      ghost var c, w, at := chain, vals, 0;
      n := 0;
      var newHead: Option<K>, prev: Option<K>, cur := None, None, head;
      while cur.Some?
        invariant n <= limit && n + |w| == |old(vals)|
        invariant LinksOK(nodes, c, w) && size == |c| && Logged() && loaded == old(loaded)
          && nodes.Keys <= old(nodes.Keys)
        invariant AtCursor(c, at, newHead, prev, cur) && CutsRight(w, at, value, limit - n, target)
        decreases |c| - at
      {
        n, newHead, prev, cur, c, w, at := ScanStep(count, value, n, newHead, prev, cur.value, c, w, at, limit, target);
      }
      head, tail := newHead, prev;
      chain, vals := c, w;
    }

    method ScanStep(count: nat, value: V, n: nat, newHead: Option<K>, prev: Option<K>, k: K,
                    ghost c: seq<K>, ghost w: seq<V>, ghost at: nat, ghost limit: nat, ghost target: seq<V>)
      returns (n': nat, newHead': Option<K>, prev': Option<K>, cur': Option<K>,
               ghost c': seq<K>, ghost w': seq<V>, ghost at': nat)
      requires LinksOK(nodes, c, w) && size == |c| && Logged() && n <= limit
      requires AtCursor(c, at, newHead, prev, Some(k)) && CutsRight(w, at, value, limit - n, target)
      requires if count == 0 then n + |w| == limit else count == limit
      modifies this`nodes, this`removed, this`size
      ensures LinksOK(nodes, c', w') && size == |c'| && Logged() && n' <= limit && n' + |w'| == n + |w|
      ensures AtCursor(c', at', newHead', prev', cur') && CutsRight(w', at', value, limit - n', target)
      ensures |c'| - at' < |c| - at && nodes.Keys <= old(nodes.Keys)
    {
      assert InPlace(nodes, c, w, at);
      n', newHead', prev', c', w', at' := n, newHead, prev, c, w, at;
      cur' := nodes[k].next;
      if nodes[k].value == value && (count == 0 || n < count) {
        Detach(k, prev, cur', c, w, at);
        n', c', w' := n + 1, RemoveAt(c, at), RemoveAt(w, at);
      } else {
        if newHead.None? {
          newHead' := Some(k);
        }
        prev', at' := Some(k), at + 1;
      }
    }

    /** Removes the last `-count` elements equal to `value`, scanning from the tail. */
    method RemoveMatchingFromTail(count: int, value: V) returns (n: nat)
      requires Valid() && count < 0
      modifies this
      ensures Valid() && loaded == old(loaded)
      ensures vals == RemoveLast(old(vals), value, -count)
      ensures n == |old(vals)| - |vals| && nodes.Keys <= old(nodes.Keys)
    {
      ghost var target := RemoveLast(vals, value, -count);
      CutsLeftIsRemoveLast(vals, |vals|, value, -count);
      assert vals[..|vals|] == vals && target + vals[|vals|..] == target;
      n := CutFromTail(-count, value, target);
    }

    method CutFromTail(limit: nat, value: V, ghost target: seq<V>) returns (n: nat)
      requires Valid() && CutsLeft(vals, |vals|, value, limit, target)
      modifies this
      ensures Valid() && loaded == old(loaded) && vals == target && n == |old(vals)| - |vals|
        && nodes.Keys <= old(nodes.Keys)
    {
      var keys := OrderedKeys();
      SurvivorsStart(nodes, keys, vals);
      ghost var c, w;
      n, c, w := CutLoop(keys, limit, value, chain, vals, target);
      hide LinksOK, First, Last, FirstIn, LastIn;
      head := FirstIn(keys, nodes.Keys);
      tail := LastIn(keys, nodes.Keys);
      chain, vals := c, w;
    }

    /** Walks the keys backwards and takes matching nodes out; the ends of the list are left to the caller. */
    method CutLoop(keys: seq<K>, limit: nat, value: V, ghost c0: seq<K>, ghost w0: seq<V>, ghost target: seq<V>)
      returns (n: nat, ghost c: seq<K>, ghost w: seq<V>)
      requires LinksOK(nodes, c0, w0) && size == |c0| == |keys| && Logged() && Distinct(keys)
      requires Survivors(keys, |keys|, c0, nodes.Keys) && CutsLeft(w0, |keys|, value, limit, target)
      modifies this`nodes, this`removed, this`size
      ensures LinksOK(nodes, c, w) && size == |c| && Logged() && nodes.Keys <= old(nodes.Keys) && w == target
        && n + |w| == |w0|
      ensures First(c) == FirstIn(keys, nodes.Keys) && Last(c) == LastIn(keys, nodes.Keys)
    {
      n, c, w := 0, c0, w0;
      var at := |keys|;
      hide *;
      while at > 0
        invariant 0 <= at <= |c| && at <= |keys| && n <= limit && n + |w| == |w0|
        invariant LinksOK(nodes, c, w) && size == |c| && Logged() && nodes.Keys <= old(nodes.Keys)
        invariant Survivors(keys, at, c, nodes.Keys)
        invariant CutsLeft(w, at, value, limit - n, target)
      {
        if n >= limit {
          break;
        }
        n, c, w := CutStep(keys, at, value, limit, n, c, w, target);
        at := at - 1;
      }
      CutsLeftEnd(w, at, value, limit - n, target);
      SurvivorsEnds(keys, at, c, nodes.Keys);
    }

    method CutStep(keys: seq<K>, at: nat, value: V, limit: nat, n: nat, ghost c: seq<K>, ghost w: seq<V>,
                   ghost target: seq<V>)
      returns (n': nat, ghost c': seq<K>, ghost w': seq<V>)
      requires 0 < at <= |c| && at <= |keys| && n < limit && Distinct(keys)
      requires LinksOK(nodes, c, w) && size == |c| && Logged()
      requires Survivors(keys, at, c, nodes.Keys) && CutsLeft(w, at, value, limit - n, target)
      modifies this`nodes, this`removed, this`size
      ensures n' <= limit && at - 1 <= |c'| && n' + |w'| == n + |w| && nodes.Keys <= old(nodes.Keys)
      ensures LinksOK(nodes, c', w') && size == |c'| && Logged()
      ensures Survivors(keys, at - 1, c', nodes.Keys) && CutsLeft(w', at - 1, value, limit - n', target)
    {
      var k := keys[at - 1];
      assert c[at - 1] == c[..at][at - 1] == keys[..at][at - 1];
      assert InPlace(nodes, c, w, at - 1);
      SurvivorsStep(keys, at, c, nodes.Keys);
      n', c', w' := n, c, w;
      if nodes[k].value == value {
        var prev, next := nodes[k].prev, nodes[k].next;
        Detach(k, prev, next, c, w, at - 1);
        n', c', w' := n + 1, RemoveAt(c, at - 1), RemoveAt(w, at - 1);
      }
    }

    /** Keeps the elements at positions `start` to `stop`, both included. */
    method TrimTo(start: nat, stop: nat)
      requires Valid() && start <= stop < size
      modifies this
      ensures Valid() && loaded == old(loaded)
      ensures vals == old(vals)[start..stop + 1] && nodes.Keys <= old(nodes.Keys)
    {
      var keys := OrderedKeys();
      ghost var c, w;
      head, tail, c, w := Trim(keys, vals, start, stop);
      KeptEnd(nodes, c, w, keys, vals, start, stop);
      size := stop - start + 1;
      chain, vals := c, w;
    }

    method Trim(keys: seq<K>, ghost vals0: seq<V>, start: nat, stop: nat)
      returns (newHead: Option<K>, prev: Option<K>, ghost c: seq<K>, ghost w: seq<V>)
      requires LinksOK(nodes, keys, vals0) && Logged() && start <= stop < |keys|
      modifies this`nodes, this`removed
      ensures Kept(nodes, c, w, keys, vals0, start, stop, |keys|) && Logged()
      ensures newHead == First(c) && prev == Last(c) && nodes.Keys <= old(nodes.Keys)
    {
      newHead, prev, c, w := None, None, [], [];
      KeptStart(nodes, keys, vals0, start, stop);
      ghost var known := nodes.Keys;
      hide Kept, LinksOK;
      for i := 0 to |keys|
        invariant Kept(nodes, c, w, keys, vals0, start, stop, i) && Logged() && nodes.Keys <= known
        invariant newHead == First(c) && prev == Last(c)
      {
        newHead, prev, c, w := TrimStep(keys, i, start, stop, newHead, prev, c, w, vals0);
      }
    }

    method TrimStep(keys: seq<K>, i: nat, start: nat, stop: nat, newHead: Option<K>, prev: Option<K>,
                    ghost c: seq<K>, ghost w: seq<V>, ghost vals0: seq<V>)
      returns (newHead': Option<K>, prev': Option<K>, ghost c': seq<K>, ghost w': seq<V>)
      requires Kept(nodes, c, w, keys, vals0, start, stop, i) && i < |keys| && Logged()
      requires newHead == First(c) && prev == Last(c)
      modifies this`nodes, this`removed
      ensures Kept(nodes, c', w', keys, vals0, start, stop, i + 1) && Logged() && nodes.Keys <= old(nodes.Keys)
      ensures newHead' == First(c') && prev' == Last(c')
    {
      hide Kept;
      newHead', prev', c', w' := newHead, prev, c, w;
      var k := keys[i];
      if i < start || i > stop {
        KeptDrop(nodes, c, w, keys, vals0, start, stop, i);
        nodes, removed := nodes - {k}, removed + [k];
        return;
      }
      KeptLink(nodes, c, w, keys, vals0, start, stop, i);
      nodes := SetNext(nodes[k := nodes[k].(prev := prev, next := None)], prev, Some(k));
      if newHead.None? {
        newHead' := Some(k);
      }
      prev', c', w' := Some(k), c + [k], w + [vals0[i]];
    }

    /** Inserts `value` before or after the first element equal to `pivot`, under the fresh key `newKey`. */
    method Insert(before: bool, pivot: V, value: V, newKey: K) returns (found: bool)
      requires Valid() && newKey !in nodes
      modifies this
      ensures Valid() && loaded == old(loaded)
      ensures found == (pivot in old(vals)) && vals == InsertNear(old(vals), before, pivot, value)
      ensures !found ==> nodes == old(nodes) && removed == old(removed)
      ensures nodes.Keys <= old(nodes.Keys) + {newKey}
    {
      var keys := OrderedKeys();
      var i := 0;
      while i < |keys| && nodes[keys[i]].value != pivot
        invariant i <= |keys| && pivot !in vals[..i]
        invariant forall j :: 0 <= j < |keys| ==> keys[j] in nodes
      {
        assert InPlace(nodes, chain, vals, i);
        assert vals[..i + 1] == vals[..i] + [vals[i]];
        i := i + 1;
      }
      if i == |keys| {
        assert vals[..i] == vals;
        InsertNearMissing(vals, before, pivot, value);
        return false;
      }
      assert InPlace(nodes, chain, vals, i);
      InsertNearAt(vals, before, pivot, value, i);
      PlaceAt(before, keys[i], value, newKey, i);
      return true;
    }

    method PlaceAt(before: bool, pivotKey: K, value: V, newKey: K, ghost i: nat)
      requires Valid() && newKey !in nodes && i < |chain| && chain[i] == pivotKey
      modifies this
      ensures Valid() && loaded == old(loaded)
      ensures vals == InsertAt(old(vals), if before then i else i + 1, value)
        && nodes.Keys == old(nodes.Keys) + {newKey}
    {
      ChainLengths(nodes, chain, vals);
      hide LinksOK;
      ghost var at := if before then i else i + 1;
      ghost var c, w := InsertAt(chain, at, newKey), InsertAt(vals, at, value);
      InsertEnds(chain, at, newKey);
      var pivot := PlaceNode(before, pivotKey, value, newKey, chain, vals, i);
      head := if before && pivot.prev.None? then Some(newKey) else head;
      tail := if !before && pivot.next.None? then Some(newKey) else tail;
      size := size + 1;
      chain, vals := c, w;
    }

    method PlaceNode(before: bool, pivotKey: K, value: V, newKey: K, ghost c: seq<K>, ghost w: seq<V>, ghost i: nat)
      returns (pivot: ListNode<K, V>)
      requires LinksOK(nodes, c, w) && newKey !in nodes && i < |c| && c[i] == pivotKey
      modifies this`nodes
      ensures pivot == NodeAt(c, w, i) && nodes.Keys == old(nodes.Keys) + {newKey}
      ensures var at := if before then i else i + 1;
        LinksOK(nodes, InsertAt(c, at, newKey), InsertAt(w, at, value))
    {
      LinkNear(nodes, c, w, i, before, newKey, value);
      pivot := nodes[pivotKey];
      var node := ListNode(newKey, value, if before then pivot.prev else Some(pivotKey),
                           if before then Some(pivotKey) else pivot.next);
      nodes := PlacedBy(nodes, before, pivot, node);
    }

    /** Replaces the value at position `index`, found by following `index` links from the head. */
    method SetAt(index: nat, value: V)
      requires Valid() && index < size
      modifies this
      ensures Valid() && loaded == old(loaded) && nodes.Keys == old(nodes.Keys)
      ensures vals == old(vals)[index := value]
    {
      var cur := head;
      for i := 0 to index
        invariant cur == Some(chain[i]) && LinksOK(nodes, chain, vals)
      {
        assert InPlace(nodes, chain, vals, i);
        cur := nodes[cur.value].next;
      }
      assert InPlace(nodes, chain, vals, index);
      ReplaceValue(nodes, chain, vals, index, value);
      nodes := nodes[cur.value := nodes[cur.value].(value := value)];
      vals := vals[index := value];
    }

    /** Pushes the values one by one, under the fresh keys `keys`. */
    method PushAll(values: seq<V>, keys: seq<K>, atTail: bool)
      requires Valid() && |keys| == |values| && Distinct(keys) && forall k :: k in keys ==> k !in nodes
      modifies this
      ensures Valid() && loaded == old(loaded)
      ensures vals == if atTail then old(vals) + values else Reverse(values) + old(vals)
      ensures nodes.Keys == old(nodes.Keys) + SetOf(keys)
    {
      ghost var vals0, keys0 := vals, nodes.Keys;
      PushedNone(vals0, values, keys, atTail);
      hide LinksOK, Reverse, SetOf, Pushed;
      for i := 0 to |values|
        invariant Valid() && loaded == old(loaded)
        invariant vals == Pushed(vals0, values[..i], atTail) && nodes.Keys == keys0 + SetOf(keys[..i])
      {
        PushedStep(vals0, values, keys, atTail, i);
        PushOne(values[i], keys[i], atTail);
      }
      PushedAll(vals0, values, keys, atTail);
    }

    method PushOne(value: V, key: K, atTail: bool)
      requires Valid() && key !in nodes
      modifies this
      ensures Valid() && loaded == old(loaded) && nodes.Keys == old(nodes.Keys) + {key}
      ensures vals == if atTail then old(vals) + [value] else [value] + old(vals)
    {
      var n;
      if atTail {
        n := AddLast(value, key);
      } else {
        n := AddFirst(value, key);
      }
    }
  }
}
