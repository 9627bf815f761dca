/** KEYS, and SCAN's cursor paging over the ordered keyspace. */
module Scan {
  import opened ByteStrings
  import opened Store
  import opened Namespace
  import opened Pattern

  // ---- Byte order --------------------------------------------------------

  predicate Less(a: Bytes, b: Bytes) {
    b != [] && (a == [] || a[0] < b[0] || (a[0] == b[0] && Less(a[1..], b[1..])))
  }

  /** A proper prefix is less, and otherwise the first difference decides. */
  lemma {:induction false} LessExact(a: Bytes, b: Bytes, i: nat)
    requires i <= |a| && i <= |b| && a[..i] == b[..i] && (i == |a| || i == |b| || a[i] != b[i])
    ensures Less(a, b) <==> i < |b| && (i == |a| || a[i] < b[i])
  {
    if i > 0 {
      assert a[0] == a[..i][0] && b[0] == b[..i][0];
      assert a[1..][..i - 1] == a[..i][1..] && b[1..][..i - 1] == b[..i][1..];
      LessExact(a[1..], b[1..], i - 1);
    }
  }

  lemma {:induction false} LessAsymmetric(a: Bytes, b: Bytes)
    ensures !(Less(a, b) && Less(b, a)) && !Less(a, a)
  {
    if a != [] && b != [] { LessAsymmetric(a[1..], b[1..]); }
    if a != [] { LessAsymmetric(a[1..], a[1..]); }
  }

  /** A common prefix does not matter for the order. */
  lemma {:induction false} LessUnderPrefix(p: Bytes, a: Bytes, b: Bytes)
    ensures Less(p + a, p + b) <==> Less(a, b)
  {
    if p == [] {
      assert p + a == a && p + b == b;
    } else {
      LessUnderPrefix(p[1..], a, b);
      assert (p + a)[1..] == p[1..] + a && (p + b)[1..] == p[1..] + b;
    }
  }

  /** The keys with one prefix lie together. */
  lemma {:induction false} PrefixConvex(p: Bytes, x: Bytes, y: Bytes)
    requires p <= y && Less(x, y) && !Less(x, p)
    ensures p <= x
  {
    if p != [] {
      assert x != [] && x[0] == p[0] == y[0];
      PrefixConvex(p[1..], x[1..], y[1..]);
      assert x == [x[0]] + x[1..];
    }
  }

  lemma {:induction false} PrefixNotLess(p: Bytes, y: Bytes)
    requires p <= y
    ensures !Less(y, p)
  {
    if p != [] { PrefixNotLess(p[1..], y[1..]); }
  }

  // ---- A snapshot of the store -------------------------------------------

  datatype Row = Row(key: Bytes, item: Item)

  /** The entries as the store's iterators yield them. */
  ghost predicate Ascending(rows: seq<Row>) {
    forall i, j :: 0 <= i < j < |rows| ==> Less(rows[i].key, rows[j].key)
  }

  datatype Filter = Filter(pattern: Option<GlobPattern>, kind: Option<Byte>)

  ghost predicate Accepts(f: Filter, name: Bytes, item: Item) {
    && (f.pattern.Some? ==> Selects(f.pattern.value, name))
    && (f.kind.Some? ==> BaseType(item.meta) == f.kind.value)
  }

  ghost predicate Wanted(f: Filter, prefix: Bytes, cursor: Bytes, row: Row) {
    && prefix <= row.key
    && (cursor == [] || Less(cursor, row.key[|prefix|..]))
    && Accepts(f, row.key[|prefix|..], row.item)
  }

  /** The names of the wanted rows from index `i` on, in order. */
  ghost function Select(rows: seq<Row>, f: Filter, prefix: Bytes, cursor: Bytes, i: nat): (names: seq<Bytes>)
    ensures |names| <= if i <= |rows| then |rows| - i else 0
    decreases |rows| - i
  {
    if i >= |rows| then []
    else
      var rest := Select(rows, f, prefix, cursor, i + 1);
      if Wanted(f, prefix, cursor, rows[i]) then [rows[i].key[|prefix|..]] + rest else rest
  }

  /** A name is selected exactly when some row has it and is wanted. */
  lemma {:induction false} SelectExact(rows: seq<Row>, f: Filter, prefix: Bytes, cursor: Bytes, i: nat, name: Bytes)
    ensures name in Select(rows, f, prefix, cursor, i) <==>
      exists p :: i <= p < |rows| && rows[p].key == prefix + name && Wanted(f, prefix, cursor, rows[p])
    decreases |rows| - i
  {
    if i < |rows| {
      SelectExact(rows, f, prefix, cursor, i + 1, name);
      if prefix <= rows[i].key { assert rows[i].key == prefix + rows[i].key[|prefix|..]; }
      assert (prefix + name)[|prefix|..] == name;
    }
  }

  /** Rows that are not wanted may be skipped. */
  lemma {:induction false} SelectSkip(rows: seq<Row>, f: Filter, prefix: Bytes, cursor: Bytes, i: nat, j: nat)
    requires i <= j <= |rows| && forall k :: i <= k < j ==> !Wanted(f, prefix, cursor, rows[k])
    ensures Select(rows, f, prefix, cursor, i) == Select(rows, f, prefix, cursor, j)
    decreases j - i
  {
    if i < j { SelectSkip(rows, f, prefix, cursor, i + 1, j); }
  }

  // ---- One page ----------------------------------------------------------

  /** Where the iterator of a page starts: at the prefix, or after the cursor. */
  predicate Reached(prefix: Bytes, cursor: Bytes, key: Bytes) {
    if cursor == [] then !Less(key, prefix) else Less(prefix + cursor, key)
  }

  /** Before the start no row is wanted. */
  lemma BeforeStart(f: Filter, prefix: Bytes, cursor: Bytes, row: Row)
    requires !Reached(prefix, cursor, row.key)
    ensures !Wanted(f, prefix, cursor, row)
  {
    if prefix <= row.key {
      var name := row.key[|prefix|..];
      assert row.key == prefix + name;
      PrefixNotLess(prefix, row.key);
      LessUnderPrefix(prefix, cursor, name);
    }
  }

  lemma ReachedFacts(prefix: Bytes, cursor: Bytes, key: Bytes)
    requires Reached(prefix, cursor, key)
    ensures !Less(key, prefix)
    ensures prefix <= key && cursor != [] ==> Less(cursor, key[|prefix|..])
  {
    if prefix <= key {
      assert key == prefix + key[|prefix|..];
      LessUnderPrefix(prefix, cursor, key[|prefix|..]);
    }
    if cursor != [] { LessTrans(prefix, prefix + cursor, key); }
  }

  /** What lies after something at or above the prefix is not below it. */
  lemma {:induction false} LessTrans(p: Bytes, x: Bytes, y: Bytes)
    requires p <= x && Less(x, y)
    ensures !Less(y, p)
  {
    if p != [] {
      if y[0] == p[0] { LessTrans(p[1..], x[1..], y[1..]); }
    }
  }

  /** The store's range iterator: the first row at or after the start. */
  method Seek(rows: seq<Row>, prefix: Bytes, cursor: Bytes) returns (at: nat)
    requires Ascending(rows)
    ensures at <= |rows| && forall i :: 0 <= i < |rows| ==> (Reached(prefix, cursor, rows[i].key) <==> at <= i)
  {
    at := 0;
    while at < |rows| && !Reached(prefix, cursor, rows[at].key)
      invariant at <= |rows| && forall i :: 0 <= i < at ==> !Reached(prefix, cursor, rows[i].key)
    {
      at := at + 1;
    }
    if at < |rows| {
      forall i | at < i < |rows| ensures Reached(prefix, cursor, rows[i].key) {
        ReachedAfter(prefix, cursor, rows[at].key, rows[i].key);
      }
    }
  }

  lemma ReachedAfter(prefix: Bytes, cursor: Bytes, x: Bytes, y: Bytes)
    requires Reached(prefix, cursor, x) && Less(x, y)
    ensures Reached(prefix, cursor, y)
  {
    if cursor == [] { NotBelow(prefix, x, y); } else { LessTransitive(prefix + cursor, x, y); }
  }

  lemma {:induction false} LessTransitive(a: Bytes, b: Bytes, c: Bytes)
    requires Less(a, b) && Less(b, c)
    ensures Less(a, c)
  {
    if a != [] && a[0] == b[0] == c[0] { LessTransitive(a[1..], b[1..], c[1..]); }
  }

  lemma {:induction false} NotBelow(p: Bytes, x: Bytes, y: Bytes)
    requires !Less(x, p) && Less(x, y)
    ensures !Less(y, p)
  {
    if p != [] && x != [] && x[0] == p[0] == y[0] { NotBelow(p[1..], x[1..], y[1..]); }
  }

  /** Once a row without the prefix is met, no row after it is wanted. */
  lemma NoneAfter(rows: seq<Row>, f: Filter, prefix: Bytes, cursor: Bytes, i: nat)
    requires Ascending(rows) && i <= |rows|
    requires i < |rows| ==> Reached(prefix, cursor, rows[i].key) && !(prefix <= rows[i].key)
    ensures Select(rows, f, prefix, cursor, i) == []
  {
    forall k | i <= k < |rows| ensures !Wanted(f, prefix, cursor, rows[k]) {
      if i < k && prefix <= rows[k].key {
        ReachedFacts(prefix, cursor, rows[i].key);
        PrefixConvex(prefix, rows[i].key, rows[k].key);
      }
    }
    SelectSkip(rows, f, prefix, cursor, i, |rows|);
  }

  function PageSize(count: nat): nat { if count == 0 then 1 else count }

  /** Whether another row with the prefix follows. */
  predicate MoreRows(rows: seq<Row>, prefix: Bytes, i: nat) { i < |rows| && prefix <= rows[i].key }

  method Matches(f: Filter, name: Bytes, item: Item) returns (ok: bool)
    ensures ok <==> Accepts(f, name, item)
  {
    if f.pattern.Some? {
      ok := IsMatch(f.pattern.value, name);
      if !ok {
        return;
      }
    }
    ok := f.kind.None? || BaseType(item.meta) == f.kind.value;
  }

  /** Whether a key with the prefix, matching or not, lies behind this name. */
  ghost predicate MoreBehind(rows: seq<Row>, prefix: Bytes, name: Bytes) {
    exists k :: 0 <= k < |rows| && prefix <= rows[k].key && Less(name, rows[k].key[|prefix|..])
  }

  lemma MoreBehindRow(rows: seq<Row>, prefix: Bytes, cursor: Bytes, i: nat, name: Bytes)
    requires Ascending(rows) && i < |rows| && rows[i].key == prefix + name
    requires i + 1 < |rows| ==> Reached(prefix, cursor, rows[i + 1].key)
    ensures MoreRows(rows, prefix, i + 1) <==> MoreBehind(rows, prefix, name)
  {
    if MoreRows(rows, prefix, i + 1) {
      var behind := rows[i + 1].key[|prefix|..];
      assert rows[i + 1].key == prefix + behind;
      LessUnderPrefix(prefix, name, behind);
    }
    if k :| 0 <= k < |rows| && prefix <= rows[k].key && Less(name, rows[k].key[|prefix|..]) {
      assert rows[k].key == prefix + rows[k].key[|prefix|..];
      LessUnderPrefix(prefix, name, rows[k].key[|prefix|..]);
      LessAsymmetric(rows[i].key, rows[k].key);
      if i + 1 < k {
        ReachedFacts(prefix, cursor, rows[i + 1].key);
        PrefixConvex(prefix, rows[i + 1].key, rows[k].key);
      }
    }
  }

  /**
    One page of SCAN: the first names after the cursor that the filter accepts;
    an empty next cursor stands for the end. A full page tells the end exactly
    when no further key has the prefix.
   */
  method Page(rows: seq<Row>, prefix: Bytes, cursor: Bytes, count: nat, f: Filter)
    returns (next: Bytes, keys: seq<Bytes>)
    requires Ascending(rows)
    ensures var all, n := Select(rows, f, prefix, cursor, 0), PageSize(count);
      && keys == (if |all| <= n then all else all[..n])
      && (|all| > n ==> next == keys[n - 1])
      && next == if |keys| == n && MoreBehind(rows, prefix, keys[n - 1]) then keys[n - 1] else []
    ensures |keys| <= (if count == 0 then 1 else count)
    ensures |keys| < (if count == 0 then 1 else count) ==> keys == Select(rows, f, prefix, cursor, 0)
  {
    hide Less, Accepts, MoreBehind;
    var n := PageSize(count);
    var i := Seek(rows, prefix, cursor);
    ghost var all := Select(rows, f, prefix, cursor, 0);
    ghost var start := i;
    forall k | 0 <= k < i ensures !Wanted(f, prefix, cursor, rows[k]) { BeforeStart(f, prefix, cursor, rows[k]); }
    SelectSkip(rows, f, prefix, cursor, 0, i);
    keys := [];
    var lastSeen: Bytes := [];
    var exhausted := false;
    while |keys| < n
      invariant start <= i <= |rows| && |keys| <= n && keys + Select(rows, f, prefix, cursor, i) == all && !exhausted
      invariant |keys| == n ==> start < i && rows[i - 1].key == prefix + keys[n - 1]
      decreases |rows| - i
    {
      if !MoreRows(rows, prefix, i) {
        exhausted := true;
        break;
      }
      ReachedFacts(prefix, cursor, rows[i].key);
      var name := rows[i].key[|prefix|..];
      lastSeen := name;
      var ok := Matches(f, name, rows[i].item);
      ghost var before := keys + Select(rows, f, prefix, cursor, i);
      if ok {
        keys := keys + [name];
      }
      i := i + 1;
      assert keys + Select(rows, f, prefix, cursor, i) == before;
    }
    if |keys| == n {
      MoreBehindRow(rows, prefix, cursor, i - 1, keys[n - 1]);
    }
    if !MoreRows(rows, prefix, i) {
      NoneAfter(rows, f, prefix, cursor, i);
      exhausted := true;
    }
    assert |all| > n ==> all[..n] == keys;
    next := if exhausted then [] else if keys != [] then keys[|keys| - 1] else lastSeen;
  }

  // ---- The whole iteration -----------------------------------------------

  /** The row the name at index `n` comes from. */
  lemma {:induction false} RowOf(rows: seq<Row>, f: Filter, prefix: Bytes, cursor: Bytes, i: nat, n: nat)
    returns (p: nat)
    requires n < |Select(rows, f, prefix, cursor, i)|
    ensures i <= p < |rows| && Wanted(f, prefix, cursor, rows[p])
    ensures var names := Select(rows, f, prefix, cursor, i);
      rows[p].key == prefix + names[n] && Select(rows, f, prefix, cursor, p + 1) == names[n + 1..]
    decreases |rows| - i
  {
    var w := Wanted(f, prefix, cursor, rows[i]);
    if w && n == 0 {
      p := i;
    } else {
      p := RowOf(rows, f, prefix, cursor, i + 1, if w then n - 1 else n);
    }
  }

  lemma {:induction false} SelectSame(rows: seq<Row>, f: Filter, prefix: Bytes, c: Bytes, d: Bytes, i: nat)
    requires forall k :: i <= k < |rows| ==> (Wanted(f, prefix, c, rows[k]) <==> Wanted(f, prefix, d, rows[k]))
    ensures Select(rows, f, prefix, c, i) == Select(rows, f, prefix, d, i)
    decreases |rows| - i
  {
    if i < |rows| { SelectSame(rows, f, prefix, c, d, i + 1); }
  }

  /** The page after the name `n` takes up exactly behind it. */
  lemma NextPage(rows: seq<Row>, f: Filter, prefix: Bytes, cursor: Bytes, n: nat)
    requires Ascending(rows)
    requires var all := Select(rows, f, prefix, cursor, 0); n < |all| && all[n] != []
    ensures var all := Select(rows, f, prefix, cursor, 0); Select(rows, f, prefix, all[n], 0) == all[n + 1..]
  {
    var all := Select(rows, f, prefix, cursor, 0);
    var c := all[n];
    var p := RowOf(rows, f, prefix, cursor, 0, n);
    forall k | 0 <= k <= p ensures !Wanted(f, prefix, c, rows[k]) {
      if prefix <= rows[k].key {
        var name := rows[k].key[|prefix|..];
        assert rows[k].key == prefix + name;
        LessUnderPrefix(prefix, c, name);
        LessAsymmetric(prefix + c, rows[k].key);
      }
    }
    forall k | p < k < |rows| ensures Wanted(f, prefix, c, rows[k]) <==> Wanted(f, prefix, cursor, rows[k]) {
      if prefix <= rows[k].key {
        var name := rows[k].key[|prefix|..];
        assert rows[k].key == prefix + name;
        LessUnderPrefix(prefix, c, name);
        if cursor != [] {
          assert rows[p].key[|prefix|..] == c;
          LessTransitive(cursor, c, name);
        }
      }
    }
    SelectSkip(rows, f, prefix, c, 0, p + 1);
    SelectSame(rows, f, prefix, c, cursor, p + 1);
  }

  /** The two names a cursor cannot carry: on the wire both read as the end. */
  predicate Reserved(name: Bytes) { name == [] || name == [ZERO] }

  /** The wire form of a cursor, and what SCAN takes it for. */
  function WireCursor(cursor: Bytes): Bytes { if cursor == [] then [ZERO] else cursor }

  function TakenCursor(wire: Bytes): Bytes { if wire == [ZERO] then [] else wire }

  /** How many of `names` the iteration yields: it ends at the first page that closes with a reserved name. */
  function Yield(names: seq<Bytes>, n: nat): nat
    requires n > 0
    decreases |names|
  {
    if |names| <= n then |names| else if Reserved(names[n - 1]) then n else n + Yield(names[n..], n)
  }

  lemma {:induction false} YieldBound(names: seq<Bytes>, n: nat)
    requires n > 0
    ensures Yield(names, n) <= |names|
    decreases |names|
  {
    if |names| > n && !Reserved(names[n - 1]) { YieldBound(names[n..], n); }
  }

  lemma YieldPage(names: seq<Bytes>, n: nat)
    requires n > 0
    ensures Yield(names, n) <= |names|
    ensures Yield(names, n) == if |names| <= n then |names| else if Reserved(names[n - 1]) then n
      else n + Yield(names[n..], n)
  {
    YieldBound(names, n);
  }

  /** A cursor comes back as it was sent, unless it is reserved. */
  lemma CursorTaken(cursor: Bytes)
    ensures WireCursor(cursor) == [ZERO] <==> Reserved(cursor)
    ensures !Reserved(cursor) ==> cursor != [] && TakenCursor(WireCursor(cursor)) == cursor
    ensures Reserved([])
  {
  }

  /** A client that calls SCAN with the given cursor, and then with each cursor it gets, until that is 0. */
  method ScanFrom(rows: seq<Row>, prefix: Bytes, wire: Bytes, count: nat, f: Filter)
    returns (keys: seq<Bytes>, pages: nat)
    requires Ascending(rows)
    ensures var all, n := Select(rows, f, prefix, TakenCursor(wire), 0), PageSize(count);
      Yield(all, n) <= |all| && keys == all[..Yield(all, n)] && pages >= 1 && (pages - 1) * n <= |all|
    decreases |Select(rows, f, prefix, TakenCursor(wire), 0)|
  {
    hide Select, Ascending, MoreBehind, TakenCursor, WireCursor, Yield, Reserved;
    ghost var all, n := Select(rows, f, prefix, TakenCursor(wire), 0), PageSize(count);
    YieldPage(all, n);
    var next;
    next, keys := Page(rows, prefix, TakenCursor(wire), count, f);
    pages := 1;
    CursorTaken(next);
    if WireCursor(next) != [ZERO] {
      NextPage(rows, f, prefix, TakenCursor(wire), n - 1);
      var more, morePages := ScanFrom(rows, prefix, WireCursor(next), count, f);
      OneMorePage(morePages, n);
      keys, pages := keys + more, pages + morePages;
      assert all == all[..n] + all[n..];
    }
  }

  lemma OneMorePage(pages: nat, n: nat)
    ensures (pages - 1) * n + n == pages * n
  {
  }

  /** The last position of a full page of `n`. */
  predicate ClosesPage(i: nat, n: nat)
    requires n > 0
    decreases i
  {
    if i < n then i == n - 1 else ClosesPage(i - n, n)
  }

  /** No page before position `i` closes with a reserved name. */
  ghost predicate Carried(names: seq<Bytes>, n: nat, i: nat)
    requires n > 0
  {
    forall j :: 0 <= j < i && j < |names| && ClosesPage(j, n) ==> !Reserved(names[j])
  }

  /** A name is yielded exactly when no page before it closes with a reserved name. */
  lemma {:induction false} YieldIndex(names: seq<Bytes>, n: nat, i: nat)
    requires n > 0 && i < |names|
    ensures i < Yield(names, n) <==> Carried(names, n, i)
    decreases |names|
  {
    if |names| > n {
      assert ClosesPage(n - 1, n);
      if n <= i && !Reserved(names[n - 1]) {
        var rest := names[n..];
        YieldIndex(rest, n, i - n);
        if Carried(names, n, i) {
          forall j | 0 <= j < i - n && ClosesPage(j, n) ensures !Reserved(rest[j]) { assert ClosesPage(j + n, n); }
        }
        if Carried(rest, n, i - n) {
          forall j | 0 <= j < i && ClosesPage(j, n) ensures !Reserved(names[j]) {
            if j >= n { assert rest[j - n] == names[j]; }
          }
        }
      }
    }
  }

  /** The iteration yields every name exactly when no page that leaves names behind closes with a reserved name. */
  lemma YieldsAll(names: seq<Bytes>, n: nat)
    requires n > 0
    ensures Yield(names, n) == |names| <==> Carried(names, n, if names == [] then 0 else |names| - 1)
  {
    YieldBound(names, n);
    if names != [] { YieldIndex(names, n, |names| - 1); }
  }

  // ---- KEYS --------------------------------------------------------------

  predicate Expired(item: Item, now: int) { item.expiry.Some? && item.expiry.value <= now }

  /** The names of rows with the prefix that have not expired. */
  ghost predicate Alive(rows: seq<Row>, prefix: Bytes, now: int, name: Bytes) {
    exists i :: 0 <= i < |rows| && rows[i].key == prefix + name && !Expired(rows[i].item, now)
  }

  ghost function Keep(names: seq<Bytes>, keep: Bytes -> bool): seq<Bytes> {
    if names == [] then [] else (if keep(names[0]) then [names[0]] else []) + Keep(names[1..], keep)
  }

  lemma AliveRow(rows: seq<Row>, prefix: Bytes, now: int, i: nat, name: Bytes)
    requires Ascending(rows) && i < |rows| && rows[i].key == prefix + name
    ensures Alive(rows, prefix, now, name) <==> !Expired(rows[i].item, now)
  {
    if j :| 0 <= j < |rows| && rows[j].key == prefix + name && !Expired(rows[j].item, now) {
      LessAsymmetric(rows[i].key, rows[j].key);
    }
  }

  /** The selected names from row `i` on whose entries have not expired. */
  ghost function LiveFrom(rows: seq<Row>, f: Filter, prefix: Bytes, now: int, i: nat): seq<Bytes> {
    Keep(Select(rows, f, prefix, [], i), name => Alive(rows, prefix, now, name))
  }

  lemma LiveStep(rows: seq<Row>, f: Filter, prefix: Bytes, now: int, i: nat)
    requires Ascending(rows) && i < |rows|
    ensures var name := if prefix <= rows[i].key then rows[i].key[|prefix|..] else [];
      LiveFrom(rows, f, prefix, now, i) ==
      (if prefix <= rows[i].key && !Expired(rows[i].item, now) && Accepts(f, name, rows[i].item) then [name] else [])
      + LiveFrom(rows, f, prefix, now, i + 1)
  {
    if prefix <= rows[i].key {
      var name, rest := rows[i].key[|prefix|..], Select(rows, f, prefix, [], i + 1);
      assert rows[i].key == prefix + name;
      AliveRow(rows, prefix, now, i, name);
      assert ([name] + rest)[1..] == rest;
    }
  }

  /** A stored entry has this name, which the pattern selects, and does not expire or expires later than now. */
  ghost predicate Listed(rows: seq<Row>, prefix: Bytes, pattern: Bytes, now: int, name: Bytes) {
    exists i :: 0 <= i < |rows| && rows[i].key == prefix + name && Selects(Keyspace(pattern), name)
      && (rows[i].item.expiry.None? || now < rows[i].item.expiry.value)
  }

  lemma {:induction false} KeepExact(names: seq<Bytes>, keep: Bytes -> bool, name: Bytes)
    ensures name in Keep(names, keep) <==> name in names && keep(name)
  {
    if names != [] { KeepExact(names[1..], keep, name); }
  }

  lemma LiveExact(rows: seq<Row>, prefix: Bytes, pattern: Bytes, now: int, name: Bytes)
    requires Ascending(rows)
    ensures name in LiveFrom(rows, Filter(Some(Keyspace(pattern)), None), prefix, now, 0)
      <==> Listed(rows, prefix, pattern, now, name)
  {
    hide Selects, Less;
    var f := Filter(Some(Keyspace(pattern)), None);
    KeepExact(Select(rows, f, prefix, [], 0), n => Alive(rows, prefix, now, n), name);
    SelectExact(rows, f, prefix, [], 0, name);
    assert (prefix + name)[|prefix|..] == name;
    forall i | 0 <= i < |rows| && rows[i].key == prefix + name
      ensures Alive(rows, prefix, now, name) <==> !Expired(rows[i].item, now)
    {
      AliveRow(rows, prefix, now, i, name);
    }
  }

  /** KEYS: the names the pattern selects whose entries have not expired, in order. */
  method Keys(rows: seq<Row>, prefix: Bytes, pattern: Bytes, now: int) returns (names: seq<Bytes>)
    requires Ascending(rows)
    ensures names == LiveFrom(rows, Filter(Some(Keyspace(pattern)), None), prefix, now, 0)
    ensures forall name :: name in names <==> Listed(rows, prefix, pattern, now, name)
  {
    hide LiveFrom, Ascending, Accepts, Expired, Listed;
    var f := Filter(Some(Keyspace(pattern)), None);
    forall name
      ensures name in LiveFrom(rows, f, prefix, now, 0) <==> Listed(rows, prefix, pattern, now, name)
    {
      LiveExact(rows, prefix, pattern, now, name);
    }
    names := [];
    for i := 0 to |rows|
      invariant names + LiveFrom(rows, f, prefix, now, i) == LiveFrom(rows, f, prefix, now, 0)
    {
      LiveStep(rows, f, prefix, now, i);
      if prefix <= rows[i].key && !Expired(rows[i].item, now) {
        var name := rows[i].key[|prefix|..];
        var ok := Matches(f, name, rows[i].item);
        if ok {
          names := names + [name];
        }
      }
    }
    LiveEnd(rows, f, prefix, now);
  }

  lemma LiveEnd(rows: seq<Row>, f: Filter, prefix: Bytes, now: int)
    ensures LiveFrom(rows, f, prefix, now, |rows|) == []
  {
  }

  lemma {:induction false} KeepMembers(names: seq<Bytes>, keep: Bytes -> bool)
    ensures forall x :: x in Keep(names, keep) <==> x in names && keep(x)
  {
    if names != [] {
      KeepMembers(names[1..], keep);
      assert names == [names[0]] + names[1..];
    }
  }

  lemma {:induction false} KeepPrefix(names: seq<Bytes>, keep: Bytes -> bool, y: nat)
    requires y <= |names| && forall i :: 0 <= i < |names| ==> (keep(names[i]) <==> i < y)
    ensures Keep(names, keep) == names[..y]
  {
    if names != [] {
      KeepPrefix(names[1..], keep, if y == 0 then 0 else y - 1);
      if y > 0 { assert names[..y] == [names[0]] + names[1..][..y - 1]; }
    }
  }

  /** Selected names are strictly ascending, so there are no repeats. */
  lemma SelectAscending(rows: seq<Row>, f: Filter, prefix: Bytes, cursor: Bytes, n: nat, m: nat)
    requires Ascending(rows) && n < m < |Select(rows, f, prefix, cursor, 0)|
    ensures var names := Select(rows, f, prefix, cursor, 0); Less(names[n], names[m]) && names[n] != names[m]
  {
    var names := Select(rows, f, prefix, cursor, 0);
    var p := RowOf(rows, f, prefix, cursor, 0, n);
    assert names[n + 1..][m - n - 1] == names[m];
    var q := RowOf(rows, f, prefix, cursor, p + 1, m - n - 1);
    LessUnderPrefix(prefix, names[n], names[m]);
    LessAsymmetric(names[n], names[n]);
  }

  /**
    The iteration gives the KEYS reply if and only if, for every matching name,
    its entry has not expired exactly when no page before it closes with a
    reserved name.
   */
  lemma ScanIsKeys(rows: seq<Row>, prefix: Bytes, pattern: Bytes, now: int, count: nat)
    requires Ascending(rows)
    ensures var all, n := Select(rows, Filter(Some(Keyspace(pattern)), None), prefix, [], 0), PageSize(count);
      && Yield(all, n) <= |all|
      && (all[..Yield(all, n)] == Keep(all, name => Alive(rows, prefix, now, name))
          <==> forall i :: 0 <= i < |all| ==> (Alive(rows, prefix, now, all[i]) <==> Carried(all, n, i)))
  {
    hide Yield, Carried, Alive, Select, Keep;
    var f, n := Filter(Some(Keyspace(pattern)), None), PageSize(count);
    var all := Select(rows, f, prefix, [], 0);
    forall i | 0 <= i < |all| ensures i < Yield(all, n) <==> Carried(all, n, i) { YieldIndex(all, n, i); }
    YieldBound(all, n);
    KeepIsPrefix(rows, f, prefix, now, Yield(all, n));
  }

  /** The live names are the first `y` of all exactly when those are the live ones. */
  lemma KeepIsPrefix(rows: seq<Row>, f: Filter, prefix: Bytes, now: int, y: nat)
    requires Ascending(rows) && y <= |Select(rows, f, prefix, [], 0)|
    ensures var all := Select(rows, f, prefix, [], 0);
      all[..y] == Keep(all, name => Alive(rows, prefix, now, name))
      <==> forall i :: 0 <= i < |all| ==> (Alive(rows, prefix, now, all[i]) <==> i < y)
  {
    var all := Select(rows, f, prefix, [], 0);
    var alive := name => Alive(rows, prefix, now, name);
    if all[..y] == Keep(all, alive) {
      KeepMembers(all, alive);
      forall i | 0 <= i < |all| ensures Alive(rows, prefix, now, all[i]) <==> i < y {
        assert i < y ==> all[..y][i] == all[i];
        if all[i] in all[..y] {
          var j :| 0 <= j < y && all[..y][j] == all[i];
          if j < i { SelectAscending(rows, f, prefix, [], j, i); }
        }
        assert all[i] in all;
      }
    }
    if forall i :: 0 <= i < |all| ==> (Alive(rows, prefix, now, all[i]) <==> i < y) {
      KeepPrefix(all, alive, y);
    }
  }

  /** With no expired entry and no reserved name in the way, SCAN and KEYS agree. */
  lemma ScanAgreesWithKeys(rows: seq<Row>, prefix: Bytes, pattern: Bytes, now: int, count: nat)
    requires Ascending(rows)
      && forall i :: 0 <= i < |rows| && prefix <= rows[i].key ==>
        !Expired(rows[i].item, now) && !Reserved(rows[i].key[|prefix|..])
    ensures var all := Select(rows, Filter(Some(Keyspace(pattern)), None), prefix, [], 0);
      Yield(all, PageSize(count)) == |all| && Keep(all, name => Alive(rows, prefix, now, name)) == all
  {
    var f, n := Filter(Some(Keyspace(pattern)), None), PageSize(count);
    var all := Select(rows, f, prefix, [], 0);
    forall i | 0 <= i < |all| ensures Alive(rows, prefix, now, all[i]) && !Reserved(all[i]) {
      var p := RowOf(rows, f, prefix, [], 0, i);
      assert rows[p].key[|prefix|..] == all[i];
      AliveRow(rows, prefix, now, p, all[i]);
    }
    YieldsAll(all, n);
    KeepPrefix(all, name => Alive(rows, prefix, now, name), |all|);
    assert all[..|all|] == all;
  }

  /** A key named 0 that closes a page ends the iteration early: the name after it is never returned. */
  lemma ReservedNameCutsOff(prefix: Bytes, item: Item)
    ensures var rows := [Row(prefix + [ZERO], item), Row(prefix + [ZERO + 1], item)];
      var all := Select(rows, Filter(None, None), prefix, [], 0);
      Ascending(rows) && all == [[ZERO], [ZERO + 1]] && Yield(all, 1) == 1
  {
    var rows := [Row(prefix + [ZERO], item), Row(prefix + [ZERO + 1], item)];
    LessUnderPrefix(prefix, [ZERO], [ZERO + 1]);
    var f := Filter(None, None);
    assert rows[0].key[|prefix|..] == [ZERO] && rows[1].key[|prefix|..] == [ZERO + 1];
    assert Select(rows, f, prefix, [], 2) == [];
    assert Select(rows, f, prefix, [], 1) == [[ZERO + 1]];
  }

  /** An entry that has expired but is still stored is returned by SCAN and left out by KEYS. */
  lemma ExpiredNameDiffers(prefix: Bytes, name: Bytes, value: Bytes, now: int)
    ensures var rows := [Row(prefix + name, Item(value, TYPE_STRING, Some(now)))];
      var all := Select(rows, Filter(Some(Keyspace([STAR])), None), prefix, [], 0);
      Ascending(rows) && all[..Yield(all, 1)] == [name] && Keep(all, n => Alive(rows, prefix, now, n)) == []
  {
    var rows := [Row(prefix + name, Item(value, TYPE_STRING, Some(now)))];
    var f := Filter(Some(Keyspace([STAR])), None);
    assert rows[0].key[|prefix|..] == name;
    assert Select(rows, f, prefix, [], 1) == [];
    assert Select(rows, f, prefix, [], 0) == [name];
    AliveRow(rows, prefix, now, 0, name);
    assert Keep([], n => Alive(rows, prefix, now, n)) == [];
  }
}
