/**
  Whole runs of list commands. A run over the stored lists gives the same
  replies, and leaves the same lists, as a run over plain sequences; the store
  holds nothing but the lists' own sentinels and nodes and what was there
  before.
 */
module ListRuns {
  import opened ByteStrings
  import opened Store
  import opened Namespace
  import opened LinkedList
  import opened ListStore

  /** The list commands, over any kind of keys. */
  datatype Command<K> =
    | PushTo(key: K, values: seq<Bytes>, atTail: bool, onlyIfExists: bool)
    | PopFrom(key: K, fromTail: bool)
    | RemoveFrom(key: K, count: int, value: Bytes)
    | TrimList(key: K, start: int, stop: int)
    | InsertInto(key: K, before: bool, pivot: Bytes, value: Bytes)
    | SetElement(key: K, index: int, value: Bytes)
    | Rotate(src: K, key: K)

  datatype Reply = Failed | Nothing | Element(value: Bytes) | Number(n: int) | Done

  // ---- The reference: keys and plain sequences ---------------------------

  datatype PlainList = PlainList(vals: seq<Bytes>, expiry: Option<int>)

  type Plain<K> = map<K, PlainList>

  function At<K(==)>(m: Plain<K>, p: K): seq<Bytes> { if p in m then m[p].vals else [] }

  /** A list that becomes empty ceases to exist; a changed one keeps its expiry, a new one has none. */
  function Put<K(==)>(m: Plain<K>, p: K, v: seq<Bytes>): Plain<K> {
    if v == [] then m - {p} else m[p := PlainList(v, if p in m then m[p].expiry else None)]
  }

  /** One command, given the keys that hold something other than a list. */
  function Perform<K(==)>(m: Plain<K>, foreign: set<K>, c: Command<K>): (Plain<K>, Reply) {
    var p, s := c.key, At(m, c.key);
    if p in foreign && !c.Rotate? then (m, Failed) else
    match c
    case PushTo(_, values, atTail, onlyIfExists) =>
      if s == [] && onlyIfExists then (m, Number(0))
      else (Put(m, p, if atTail then s + values else Reverse(values) + s), Number(|s| + |values|))
    case PopFrom(_, fromTail) =>
      if s == [] then (m, Nothing)
      else (Put(m, p, Popped(s, fromTail)), Element(s[if fromTail then |s| - 1 else 0]))
    case RemoveFrom(_, count, value) =>
      var left := Remaining(s, count, value);
      (Put(m, p, left), Number(|s| - |left|))
    case TrimList(_, start, stop) => (Put(m, p, Trimmed(s, start, stop)), Done)
    case InsertInto(_, before, pivot, value) =>
      if pivot in s then (Put(m, p, InsertNear(s, before, pivot, value)), Number(|s| + 1)) else (m, Number(-1))
    case SetElement(_, index, value) =>
      var i := if index < 0 then index + |s| else index;
      if 0 <= i < |s| then (Put(m, p, s[i := value]), Done) else (m, Failed)
    case Rotate(src, dst) =>
      var from := At(m, src);
      if src in foreign then (m, Failed)
      else if from == [] then (m, Nothing)
      else
        var left, last := Put(m, src, from[..|from| - 1]), from[|from| - 1];
        if dst in foreign then (left, Failed) else (Put(left, dst, [last] + At(left, dst)), Element(last))
  }

  /** On its own a command that fails is undone; among the commands of EXEC it is not. */
  function PerformOne<K(==)>(m: Plain<K>, foreign: set<K>, c: Command<K>, batch: bool): (Plain<K>, Reply) {
    var (m', reply) := Perform(m, foreign, c);
    if reply.Failed? && !batch then (m, reply) else (m', reply)
  }

  function PerformAll<K(==)>(m: Plain<K>, foreign: set<K>, cs: seq<Command<K>>, batch: bool): (Plain<K>, seq<Reply>)
    decreases |cs|
  {
    if cs == [] then (m, [])
    else
      var (m1, reply) := PerformOne(m, foreign, cs[0], batch);
      var (m2, replies) := PerformAll(m1, foreign, cs[1..], batch);
      (m2, [reply] + replies)
  }

  // ---- The stored lists against the reference ----------------------------

  ghost predicate Agree(lists: Lists, m: Plain<Bytes>) {
    forall p :: (p in lists <==> p in m)
      && (p in lists ==> m[p] == PlainList(lists[p].vals, lists[p].expiry) && m[p].vals != [])
  }

  /** The random names a command draws: as many node keys as it may add elements, and a namespace identifier. */
  datatype Step = Step(command: Command<Bytes>, keys: seq<NodeKey>, id: NodeKey)

  function Growth<K>(c: Command<K>): nat {
    match c
    case PushTo(_, values, _, _) => |values|
    case InsertInto(_, _, _, _) => 1
    case Rotate(_, _) => 1
    case _ => 0
  }

  /** The names in use: node keys, and the prefixes the list at a key has had. */
  datatype Names = Names(keys: set<NodeKey>, prefixes: set<(Bytes, Bytes)>)

  ghost predicate Covers(names: Names, lists: Lists) {
    forall p :: p in lists ==> SetOf(lists[p].keys) <= names.keys && (p, lists[p].prefix.bytes) in names.prefixes
  }

  ghost function Extended(names: Names, s: Step): Names {
    Names(names.keys + SetOf(s.keys), names.prefixes + {(s.command.key, FreshNamespace(s.command.key, s.id))})
  }

  ghost predicate WellFormed(c: Command<Bytes>) {
    && IsPublic(c.key) && (c.Rotate? ==> IsPublic(c.src)) && (c.PushTo? ==> c.values != [])
  }

  ghost predicate FreshStep(names: Names, others: Data, s: Step) {
    var ns := FreshNamespace(s.command.key, s.id);
    && WellFormed(s.command) && |s.keys| == Growth(s.command)
    && Distinct(s.keys) && NO_LINK !in s.keys && SetOf(s.keys) !! names.keys
    && (forall q :: (q, ns) !in names.prefixes) && forall e :: e in others ==> !IsNodeEntry(ns, e)
  }

  lemma FreshStepNames(data: Data, lists: Lists, others: Data, names: Names, s: Step)
    requires World(data, lists, others) && Covers(names, lists) && FreshStep(names, others, s)
    ensures FreshNames(data, lists, s.command.key, s.keys, s.id)
  {
    hide World, FreshNamespace, IsNodeEntry, IsPublic;
    FreshNamespaceIsNew(s.command.key, s.id);
    FreshIsUnused(data, lists, others, FreshNamespace(s.command.key, s.id));
    var p := s.command.key;
    if p in lists {
      forall k | k in s.keys ensures k !in lists[p].keys {
        assert k in SetOf(s.keys) && k !in names.keys;
      }
    }
  }

  ghost predicate Tracks(data: Data, lists: Lists, others: Data, m: Plain<Bytes>, names: Names) {
    World(data, lists, others) && Agree(lists, m) && Covers(names, lists)
  }

  lemma Followed(lists: Lists, lists': Lists, m: Plain<Bytes>, names: Names, names': Names, p: Bytes, v: seq<Bytes>,
                 added: set<NodeKey>, ns: Bytes)
    requires NonEmpty(lists') && Agree(lists, m) && Covers(names, lists) && Becomes(lists, lists', p, v, added, ns)
    requires names.keys + added <= names'.keys && names.prefixes <= names'.prefixes
    requires v == [] || p in lists || (p, ns) in names'.prefixes
    ensures Agree(lists', Put(m, p, v)) && Covers(names', lists')
  {
  }

  lemma Tracked(data: Data, lists: Lists, lists': Lists, others: Data, m: Plain<Bytes>, names: Names, names': Names,
                p: Bytes, v: seq<Bytes>, added: set<NodeKey>, ns: Bytes)
    requires World(data, lists', others) && Agree(lists, m) && Covers(names, lists)
      && Becomes(lists, lists', p, v, added, ns)
    requires names.keys + added <= names'.keys && names.prefixes <= names'.prefixes
    requires v == [] || p in lists || (p, ns) in names'.prefixes
    ensures Tracks(data, lists', others, Put(m, p, v), names')
  {
    hide World;
    WorldNonEmpty(data, lists', others);
    Followed(lists, lists', m, names, names', p, v, added, ns);
  }

  /** What every command finds: the stored list is the plain one, and a command that does nothing keeps on track. */
  lemma Found(data: Data, lists: Lists, others: Data, m: Plain<Bytes>, names: Names, s: Step)
    requires Tracks(data, lists, others, m, names) && FreshStep(names, others, s)
    ensures Tracks(data, lists, others, m, Extended(names, s)) && IsPublic(s.command.key)
    ensures var p := s.command.key;
      ValsAt(lists, p) == At(m, p) && (p in lists <==> At(m, p) != []) && (p in lists ==> p !in others)
  {
    hide World, IsPublic, FreshNamespace;
    WorldNonEmpty(data, lists, others);
  }

  function PopReply(r: Result<Option<Bytes>, DbError>): Reply {
    match r case Err(_) => Failed case Ok(None) => Nothing case Ok(Some(v)) => Element(v)
  }

  function CountReply(r: Result<int, DbError>): Reply {
    match r case Err(_) => Failed case Ok(n) => Number(n)
  }

  function DoneReply(r: Result<(), DbError>): Reply {
    if r.Ok? then Done else Failed
  }

  /** Runs the commands of one kind each; `Execute` chooses. */
  method ExecutePush(tx: Tx, s: Step, ghost lists: Lists, ghost others: Data, ghost m: Plain<Bytes>, ghost names: Names)
    returns (reply: Reply, ghost lists': Lists)
    requires Tracks(tx.data, lists, others, m, names) && FreshStep(names, others, s) && s.command.PushTo?
    requires |At(m, s.command.key)| + |s.keys| < Pow256(4)
    modifies tx
    ensures var (m', r) := Perform(m, others.Keys, s.command);
      reply == r && Tracks(tx.data, lists', others, m', Extended(names, s))
  {
    hide World, IsPublic, FreshNamespace, Becomes, Agree, Covers, FreshNames;
    var c, p := s.command, s.command.key;
    FreshStepNames(tx.data, lists, others, names, s);
    Found(tx.data, lists, others, m, names, s);
    var r;
    r, lists' := Push(tx, p, c.values, c.atTail, c.onlyIfExists, s.keys, s.id, lists, others);
    if p !in others && (p in lists || !c.onlyIfExists) {
      Tracked(tx.data, lists, lists', others, m, names, Extended(names, s), p,
              if c.atTail then ValsAt(lists, p) + c.values else Reverse(c.values) + ValsAt(lists, p),
              SetOf(s.keys), FreshNamespace(p, s.id));
    }
    reply := CountReply(r);
  }

  method ExecutePop(tx: Tx, s: Step, ghost lists: Lists, ghost others: Data, ghost m: Plain<Bytes>, ghost names: Names)
    returns (reply: Reply, ghost lists': Lists)
    requires Tracks(tx.data, lists, others, m, names) && FreshStep(names, others, s) && s.command.PopFrom?
    modifies tx
    ensures var (m', r) := Perform(m, others.Keys, s.command);
      reply == r && Tracks(tx.data, lists', others, m', Extended(names, s))
  {
    hide World, IsPublic, FreshNamespace, Becomes, Agree, Covers;
    var c, p := s.command, s.command.key;
    Found(tx.data, lists, others, m, names, s);
    var r;
    r, lists' := Pop(tx, p, c.fromTail, lists, others);
    if p in lists {
      Tracked(tx.data, lists, lists', others, m, names, Extended(names, s), p, Popped(ValsAt(lists, p), c.fromTail), {},
              []);
    }
    reply := PopReply(r);
  }

  method ExecuteRemove(tx: Tx, s: Step, ghost lists: Lists, ghost others: Data, ghost m: Plain<Bytes>,
                       ghost names: Names)
    returns (reply: Reply, ghost lists': Lists)
    requires Tracks(tx.data, lists, others, m, names) && FreshStep(names, others, s) && s.command.RemoveFrom?
    modifies tx
    ensures var (m', r) := Perform(m, others.Keys, s.command);
      reply == r && Tracks(tx.data, lists', others, m', Extended(names, s))
  {
    hide World, IsPublic, FreshNamespace, Becomes, Agree, Covers;
    var c, p := s.command, s.command.key;
    Found(tx.data, lists, others, m, names, s);
    var r;
    r, lists' := LRem(tx, p, c.count, c.value, lists, others);
    if p !in others {
      Tracked(tx.data, lists, lists', others, m, names, Extended(names, s), p,
              Remaining(ValsAt(lists, p), c.count, c.value), {}, []);
    }
    reply := if r.Err? then Failed else Number(r.value);
  }

  method ExecuteTrim(tx: Tx, s: Step, ghost lists: Lists, ghost others: Data, ghost m: Plain<Bytes>, ghost names: Names)
    returns (reply: Reply, ghost lists': Lists)
    requires Tracks(tx.data, lists, others, m, names) && FreshStep(names, others, s) && s.command.TrimList?
    modifies tx
    ensures var (m', r) := Perform(m, others.Keys, s.command);
      reply == r && Tracks(tx.data, lists', others, m', Extended(names, s))
  {
    hide World, IsPublic, FreshNamespace, Becomes, Agree, Covers;
    var c, p := s.command, s.command.key;
    Found(tx.data, lists, others, m, names, s);
    var r;
    r, lists' := LTrim(tx, p, c.start, c.stop, lists, others);
    if p !in others {
      Tracked(tx.data, lists, lists', others, m, names, Extended(names, s), p,
              Trimmed(ValsAt(lists, p), c.start, c.stop), {}, []);
    }
    reply := DoneReply(r);
  }

  lemma FreshStepKey(lists: Lists, others: Data, names: Names, s: Step)
    requires Covers(names, lists) && FreshStep(names, others, s) && Growth(s.command) == 1
    ensures |s.keys| == 1 && IsPublic(s.command.key) && s.keys[0] != NO_LINK && s.keys[0] in SetOf(s.keys)
    ensures s.command.key in lists ==> s.keys[0] !in lists[s.command.key].keys
  {
    assert s.keys[0] in SetOf(s.keys);
  }

  method ExecuteInsert(tx: Tx, s: Step, ghost lists: Lists, ghost others: Data, ghost m: Plain<Bytes>,
                       ghost names: Names)
    returns (reply: Reply, ghost lists': Lists)
    requires Tracks(tx.data, lists, others, m, names) && FreshStep(names, others, s) && s.command.InsertInto?
    requires |At(m, s.command.key)| + 1 < Pow256(4)
    modifies tx
    ensures var (m', r) := Perform(m, others.Keys, s.command);
      reply == r && Tracks(tx.data, lists', others, m', Extended(names, s))
  {
    hide World, IsPublic, FreshNamespace, Becomes, Agree, Covers, FreshStep;
    var c, p := s.command, s.command.key;
    Found(tx.data, lists, others, m, names, s);
    var r;
    FreshStepKey(lists, others, names, s);
    r, lists' := LInsert(tx, p, c.before, c.pivot, c.value, s.keys[0], lists, others);
    if p !in others && c.pivot in ValsAt(lists, p) {
      Tracked(tx.data, lists, lists', others, m, names, Extended(names, s), p,
              InsertNear(ValsAt(lists, p), c.before, c.pivot, c.value), {s.keys[0]}, []);
    }
    reply := CountReply(r);
  }

  method ExecuteSet(tx: Tx, s: Step, ghost lists: Lists, ghost others: Data, ghost m: Plain<Bytes>, ghost names: Names)
    returns (reply: Reply, ghost lists': Lists)
    requires Tracks(tx.data, lists, others, m, names) && FreshStep(names, others, s) && s.command.SetElement?
    modifies tx
    ensures var (m', r) := Perform(m, others.Keys, s.command);
      reply == r && Tracks(tx.data, lists', others, m', Extended(names, s))
  {
    hide World, IsPublic, FreshNamespace, Becomes, Agree, Covers;
    var c, p := s.command, s.command.key;
    Found(tx.data, lists, others, m, names, s);
    var r;
    r, lists' := LSet(tx, p, c.index, c.value, lists, others);
    ghost var i := if c.index < 0 then c.index + |ValsAt(lists, p)| else c.index;
    if p !in others && 0 <= i < |ValsAt(lists, p)| {
      Tracked(tx.data, lists, lists', others, m, names, Extended(names, s), p, ValsAt(lists, p)[i := c.value], {}, []);
    }
    reply := DoneReply(r);
  }

  method ExecuteRotate(tx: Tx, s: Step, ghost lists: Lists, ghost others: Data, ghost m: Plain<Bytes>,
                       ghost names: Names)
    returns (reply: Reply, ghost lists': Lists)
    requires Tracks(tx.data, lists, others, m, names) && FreshStep(names, others, s) && s.command.Rotate?
    requires |At(m, s.command.key)| + 1 < Pow256(4)
    modifies tx
    ensures var (m', r) := Perform(m, others.Keys, s.command);
      reply == r && Tracks(tx.data, lists', others, m', Extended(names, s))
  {
    hide World, IsPublic, FreshNamespace, Becomes, FreshNames;
    var src, dst := s.command.src, s.command.key;
    FreshStepNames(tx.data, lists, others, names, s);
    WorldNonEmpty(tx.data, lists, others);
    assert s.keys == [s.keys[0]];
    var r; ghost var popped;
    ghost var data := tx.data;
    r, popped, lists' := RPopLPush(tx, src, dst, s.keys[0], s.id, lists, others);
    if src in lists {
      RotateTracked(tx.data, lists, popped, lists', others, m, names, s);
    }
    reply := PopReply(r);
  }

  lemma RotateTracked(data: Data, lists: Lists, popped: Lists, lists': Lists, others: Data, m: Plain<Bytes>,
                      names: Names, s: Step)
    requires World(data, lists', others) && Agree(lists, m) && Covers(names, lists) && s.command.Rotate?
      && |s.keys| == 1
    requires s.command.src in lists && s.command.src !in others && NonEmpty(popped)
    requires Becomes(lists, popped, s.command.src, Popped(At(m, s.command.src), true), {}, [])
    requires if s.command.key in others then lists' == popped
      else Becomes(popped, lists', s.command.key,
                   [At(m, s.command.src)[|At(m, s.command.src)| - 1]] + ValsAt(popped, s.command.key),
                   {s.keys[0]}, FreshNamespace(s.command.key, s.id))
    ensures Tracks(data, lists', others, Perform(m, others.Keys, s.command).0, Extended(names, s))
  {
    hide World, Becomes;
    var src, dst, names' := s.command.src, s.command.key, Extended(names, s);
    var left := Popped(At(m, src), true);
    Followed(lists, popped, m, names, names', src, left, {}, []);
    if dst !in others {
      Tracked(data, popped, lists', others, Put(m, src, left), names', names', dst,
              [At(m, src)[|At(m, src)| - 1]] + ValsAt(popped, dst), {s.keys[0]}, FreshNamespace(dst, s.id));
    }
  }

  /** One command; outside EXEC a failed one leaves no trace. */
  method Execute(tx: Tx, s: Step, batch: bool, ghost lists: Lists, ghost others: Data, ghost m: Plain<Bytes>,
                 ghost names: Names)
    returns (reply: Reply, ghost lists': Lists)
    requires Tracks(tx.data, lists, others, m, names) && FreshStep(names, others, s)
    requires |At(m, s.command.key)| + Growth(s.command) < Pow256(4)
    modifies tx
    ensures var (m', r) := PerformOne(m, others.Keys, s.command, batch);
      reply == r && Tracks(tx.data, lists', others, m', Extended(names, s))
  {
    hide Tracks, Perform;
    assert |s.keys| == Growth(s.command);
    var saved := tx.data;
    Found(tx.data, lists, others, m, names, s);
    match s.command {
      case PushTo(_, _, _, _) => reply, lists' := ExecutePush(tx, s, lists, others, m, names);
      case PopFrom(_, _) => reply, lists' := ExecutePop(tx, s, lists, others, m, names);
      case RemoveFrom(_, _, _) => reply, lists' := ExecuteRemove(tx, s, lists, others, m, names);
      case TrimList(_, _, _) => reply, lists' := ExecuteTrim(tx, s, lists, others, m, names);
      case InsertInto(_, _, _, _) => reply, lists' := ExecuteInsert(tx, s, lists, others, m, names);
      case SetElement(_, _, _) => reply, lists' := ExecuteSet(tx, s, lists, others, m, names);
      case Rotate(_, _) => reply, lists' := ExecuteRotate(tx, s, lists, others, m, names);
    }
    if reply.Failed? && !batch {
      tx.data := saved;
      lists' := lists;
    }
  }

  // ---- Runs --------------------------------------------------------------

  /** No list is longer than `n`. */
  ghost predicate Bounded(m: Plain<Bytes>, n: nat) { forall p :: p in m ==> |m[p].vals| <= n }

  lemma AtBound(m: Plain<Bytes>, p: Bytes, n: nat)
    requires Bounded(m, n)
    ensures |At(m, p)| <= n
  {
  }

  lemma PerformBound(m: Plain<Bytes>, foreign: set<Bytes>, c: Command<Bytes>, batch: bool, n: nat)
    requires Bounded(m, n)
    ensures Bounded(PerformOne(m, foreign, c, batch).0, n + Growth(c))
  {
    match c
    case InsertInto(p, before, pivot, value) => InsertNearLength(At(m, p), before, pivot, value);
    case _ =>
  }

  ghost function TotalGrowth(steps: seq<Step>): nat
    decreases |steps|
  {
    if steps == [] then 0 else Growth(steps[0].command) + TotalGrowth(steps[1..])
  }

  ghost predicate FreshRun(names: Names, others: Data, steps: seq<Step>)
    decreases |steps|
  {
    steps == [] || (FreshStep(names, others, steps[0]) && FreshRun(Extended(names, steps[0]), others, steps[1..]))
  }

  function Commands(steps: seq<Step>): seq<Command<Bytes>>
    decreases |steps|
  {
    if steps == [] then [] else [steps[0].command] + Commands(steps[1..])
  }

  /** Any run of commands over any world of lists is the run over plain sequences, reply by reply. */
  method Run(tx: Tx, steps: seq<Step>, batch: bool, ghost lists: Lists, ghost others: Data, ghost m: Plain<Bytes>,
             ghost names: Names, ghost n: nat)
    returns (replies: seq<Reply>, ghost lists': Lists)
    requires Tracks(tx.data, lists, others, m, names) && FreshRun(names, others, steps)
    requires Bounded(m, n) && n + TotalGrowth(steps) < Pow256(4)
    modifies tx
    ensures World(tx.data, lists', others)
    ensures var (m', expected) := PerformAll(m, others.Keys, Commands(steps), batch);
      replies == expected && Agree(lists', m')
    decreases |steps|
  {
    hide World, FreshStep, Bounded, Perform;
    if steps == [] {
      return [], lists;
    }
    AtBound(m, steps[0].command.key, n);
    ghost var c := steps[0].command;
    PerformBound(m, others.Keys, c, batch, n);
    var reply; ghost var lists1;
    reply, lists1 := Execute(tx, steps[0], batch, lists, others, m, names);
    ghost var m1 := PerformOne(m, others.Keys, c, batch).0;
    assert Commands(steps) == [c] + Commands(steps[1..]);
    replies, lists' := Run(tx, steps[1..], batch, lists1, others, m1, Extended(names, steps[0]), n + Growth(c));
    replies := [reply] + replies;
  }

  /** A store without lists is where every run may start. */
  lemma RunStart(others: Data)
    requires forall e :: e in others && IsPublic(e) ==> BaseType(others[e].meta) != TYPE_LIST
    ensures Tracks(others, map[], others, map[], Names({}, {})) && Bounded(map[], 0)
  {
    var none: Lists := map[];
    assert World(others, none, others);
  }

  /** When a run has emptied every list, no sentinel and no node is left behind. */
  lemma RunEnd(data: Data, lists: Lists, others: Data)
    requires World(data, lists, others) && Agree(lists, map[])
    ensures data == others
  {
    forall e ensures e in data <==> e in others && Lookup(data, e) == Some(others[e]) {
      assert !Owned(lists, e) && e !in lists;
    }
  }

  lemma ElementMoves<T>(s: seq<T>, t: seq<T>)
    requires s != []
    ensures var init, last := s[..|s| - 1], s[|s| - 1];
      && multiset(init) + multiset([last] + t) == multiset(s) + multiset(t)
      && multiset([last] + init) == multiset(s) && multiset(init) + multiset(t) != multiset(s) + multiset(t)
  {
    assert s == s[..|s| - 1] + [s[|s| - 1]];
    assert |multiset(s) + multiset(t)| == |s| + |t|;
  }

  lemma RotateEffect<K>(m: Plain<K>, foreign: set<K>, src: K, dst: K, batch: bool)
    requires At(m, src) != [] && src !in foreign && (dst in foreign ==> dst !in m)
    ensures var (s, m') := (At(m, src), PerformOne(m, foreign, Rotate(src, dst), batch).0);
      var init := s[..|s| - 1];
      if dst in foreign then At(m', dst) == At(m, dst) && At(m', src) == if batch then init else s
      else At(m', dst) == [s[|s| - 1]] + (if src == dst then init else At(m, dst))
           && (src != dst ==> At(m', src) == init)
  {
  }

  ghost predicate Conserved<K>(m: Plain<K>, m': Plain<K>, src: K, dst: K) {
    if src == dst then multiset(At(m', src)) == multiset(At(m, src))
    else multiset(At(m', src)) + multiset(At(m', dst)) == multiset(At(m, src)) + multiset(At(m, dst))
  }

  /** RPOPLPUSH loses an element exactly when it takes one and the destination is no list, and EXEC keeps the effect. */
  lemma RotateConserves<K>(m: Plain<K>, foreign: set<K>, src: K, dst: K, batch: bool)
    requires forall p :: p in m ==> p !in foreign
    ensures Conserved(m, PerformOne(m, foreign, Rotate(src, dst), batch).0, src, dst)
      <==> !(batch && At(m, src) != [] && dst in foreign)
  {
    hide Perform, PerformOne;
    if At(m, src) == [] {
      RotateNothing(m, foreign, src, dst, batch);
    } else {
      RotateEffect(m, foreign, src, dst, batch);
      ElementMoves(At(m, src), At(m, dst));
    }
  }

  lemma RotateNothing<K>(m: Plain<K>, foreign: set<K>, src: K, dst: K, batch: bool)
    requires At(m, src) == []
    ensures PerformOne(m, foreign, Rotate(src, dst), batch).0 == m
  {
  }

  /** A list rotated onto itself keeps its expiry unless it is gone for a moment: it has one element only. */
  lemma RotateExpiry<K>(m: Plain<K>, foreign: set<K>, k: K, batch: bool)
    requires k in m && k !in foreign && m[k].vals != []
    ensures var m' := PerformOne(m, foreign, Rotate(k, k), batch).0;
      k in m' && (m'[k].expiry == m[k].expiry <==> |m[k].vals| > 1 || m[k].expiry.None?)
  {
  }

  /** One list of one element, rotated inside EXEC onto a key that holds no list: the element is gone. */
  lemma RotateLoses<K>(src: K, dst: K, x: PlainList)
    requires src != dst && |x.vals| == 1
    ensures PerformOne(map[src := x], {dst}, Rotate(src, dst), true) == (map[], Failed)
    ensures PerformOne(map[src := x], {dst}, Rotate(src, dst), false) == (map[src := x], Failed)
  {
    var m: Plain<K> := map[src := x];
    assert At(m, src) == x.vals && Put(m, src, []) == map[];
  }
}
