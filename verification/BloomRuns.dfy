/**
  Runs of the Bloom commands on one key. A run is a chain of exact steps, from
  any store; what is proved about runs is proved about chains.
 */
module BloomRuns {
  import opened ByteStrings
  import opened Store
  import opened Namespace
  import opened BloomMeta
  import opened Bloom

  // ---- Steps -------------------------------------------------------------

  /** An add, a query, or the creation of a filter that is not there; the commands are sequences of these. */
  datatype Op = Add(item: Bytes) | Exists(item: Bytes) | Create(setup: Setup)

  predicate Callable(op: Op) { op.Create? ==> SetupFits(op.setup) }

  /** The store, and what the key reads as. */
  datatype Snap = Snap(data: Data, meta: Option<Meta>)

  /** One operation: its reply, nothing for a panic, which drops the transaction, and the state after it. */
  ghost predicate Steps(s: Snap, op: Op, reply: Option<nat>, t: Snap, prefix: Bytes, b: Build) {
    match op
    case Add(item) =>
      var m := Target(s.meta, b);
      if AddPanics(s.data, prefix, m, item, b) then reply == None && t == s
      else
        && reply.Some? && t.meta.Some?
        && Inserted(s.data, t.data, prefix, m, t.meta.value, item, b.maths, reply.value)
    case Exists(item) =>
      && t == s
      && reply == if s.meta.Some? && QueryPanics(s.data, prefix, s.meta.value, item, b.maths) then None
                  else Some(if s.meta.Some? && Holds(s.data, prefix, s.meta.value, item, b.maths) then 1 else 0)
    case Create(setup) =>
      if s.meta.Some? then reply == Some(0) && t == s
      else reply == Some(1) && t.meta == Some(MetaOf(setup, b.maths)) && SamePages(s.data, t.data, prefix)
  }

  /** Performs one operation. */
  method Perform(tx: Tx, public: Bytes, prefix: ElementPrefix, op: Op, b: Build, ghost m: Option<Meta>)
    returns (reply: Option<nat>, ghost next: Option<Meta>)
    requires Reads(tx.data, public, prefix, m) && Placed(public, prefix) && GoodBuild(b) && Callable(op)
    modifies tx
    ensures Reads(tx.data, public, prefix, next) && OnlyValue(old(tx.data), tx.data, public, prefix.bytes)
    ensures Steps(Snap(old(tx.data), m), op, reply, Snap(tx.data, next), prefix.bytes, b)
  {
    hide Reads, OnlyValue, Inserted, AddPanics, MetaOf, SamePages, InRange, Placed, Holds, QueryPanics;
    var saved := tx.data;
    OnlyValueSame(saved, public, prefix.bytes);
    match op
    case Add(item) =>
      var r; ghost var after;
      r, after := AddOne(tx, public, prefix, item, b, m);
      match r {
        case Ok(n) => return Some(n), Some(after);
        case Err(_) =>
          tx.data := saved;
          return None, m;
      }
    case Exists(item) =>
      var r := ExistsOne(tx, public, prefix, item, b.maths, m);
      match r {
        case Ok(yes) => return Some(if yes then 1 else 0), m;
        case Err(_) => return None, m;
      }
    case Create(setup) =>
      var fetched := FetchMeta(tx, public, prefix, m);
      if fetched.Ok? {
        return Some(0), m;
      }
      CreateFilter(tx, public, prefix, setup, b);
      return Some(1), Some(MetaOf(setup, b.maths));
  }

  // ---- Chains ------------------------------------------------------------

  /** Each state follows from the one before by one operation, and reads as it says. */
  ghost predicate Chain(states: seq<Snap>, ops: seq<Op>, replies: seq<Option<nat>>, public: Bytes,
                        prefix: ElementPrefix, b: Build) {
    && |states| == |ops| + 1 && |replies| == |ops|
    && (forall i :: 0 <= i < |states| ==> Reads(states[i].data, public, prefix, states[i].meta))
    && (forall i :: 0 <= i < |ops| ==> Callable(ops[i]))
    && forall i :: 0 <= i < |ops| ==> Steps(states[i], ops[i], replies[i], states[i + 1], prefix.bytes, b)
  }

  lemma ChainStart(s: Snap, public: Bytes, prefix: ElementPrefix, b: Build)
    requires Reads(s.data, public, prefix, s.meta)
    ensures Chain([s], [], [], public, prefix, b)
  {
  }

  lemma ChainNext(states: seq<Snap>, ops: seq<Op>, replies: seq<Option<nat>>, public: Bytes, prefix: ElementPrefix,
                  b: Build, op: Op, reply: Option<nat>, t: Snap)
    requires Chain(states, ops, replies, public, prefix, b) && Callable(op) && Reads(t.data, public, prefix, t.meta)
    requires Steps(states[|ops|], op, reply, t, prefix.bytes, b)
    ensures Chain(states + [t], ops + [op], replies + [reply], public, prefix, b)
  {
    hide Steps, Reads, Callable;
    var states', ops', replies' := states + [t], ops + [op], replies + [reply];
    forall i | 0 <= i < |ops'| ensures Steps(states'[i], ops'[i], replies'[i], states'[i + 1], prefix.bytes, b) {
      if i < |ops| {
        assert states'[i] == states[i] && states'[i + 1] == states[i + 1] && ops'[i] == ops[i]
          && replies'[i] == replies[i];
      }
    }
  }

  lemma ChainAt(states: seq<Snap>, ops: seq<Op>, replies: seq<Option<nat>>, public: Bytes, prefix: ElementPrefix,
                b: Build, i: nat)
    requires Chain(states, ops, replies, public, prefix, b) && i <= |ops|
    ensures |states| == |ops| + 1 && |replies| == |ops| && Reads(states[i].data, public, prefix, states[i].meta)
    ensures i < |ops| ==> Callable(ops[i]) && Steps(states[i], ops[i], replies[i], states[i + 1], prefix.bytes, b)
  {
  }

  /** Any run on one key, from any store, is a chain. */
  method Run(tx: Tx, public: Bytes, prefix: ElementPrefix, ops: seq<Op>, b: Build, ghost m: Option<Meta>)
    returns (replies: seq<Option<nat>>, ghost states: seq<Snap>)
    requires Reads(tx.data, public, prefix, m) && Placed(public, prefix) && GoodBuild(b)
    requires forall i :: 0 <= i < |ops| ==> Callable(ops[i])
    modifies tx
    ensures Chain(states, ops, replies, public, prefix, b)
    ensures states[0] == Snap(old(tx.data), m) && states[|ops|].data == tx.data
    ensures OnlyValue(old(tx.data), tx.data, public, prefix.bytes)
  {
    ghost var data, now := tx.data, m;
    OnlyValueSame(data, public, prefix.bytes);
    hide Reads, OnlyValue, Placed, InRange, Steps, Chain, Callable;
    replies, states := [], [Snap(data, m)];
    ChainStart(states[0], public, prefix, b);
    assert ops[..0] == [];
    for i := 0 to |ops|
      invariant |states| == i + 1 && states[i] == Snap(tx.data, now) && states[0] == Snap(data, m)
      invariant Chain(states, ops[..i], replies, public, prefix, b) && Reads(tx.data, public, prefix, now)
      invariant OnlyValue(data, tx.data, public, prefix.bytes)
    {
      ghost var before := tx.data;
      var reply;
      reply, now := Perform(tx, public, prefix, ops[i], b, now);
      OnlyValueChain(data, before, tx.data, public, prefix.bytes);
      ChainNext(states, ops[..i], replies, public, prefix, b, ops[i], reply, Snap(tx.data, now));
      assert ops[..i + 1] == ops[..i] + [ops[i]];
      replies, states := replies + [reply], states + [Snap(tx.data, now)];
    }
    assert ops[..|ops|] == ops;
    ChainAt(states, ops, replies, public, prefix, b, 0);
  }

  // ---- Nothing is lost ---------------------------------------------------

  /** The same sub-filter, up to how much was inserted. */
  predicate SameShape(f: SubFilter, g: SubFilter) {
    && f.id == g.id && f.capacity == g.capacity && f.errorRate == g.errorRate && f.numHashes == g.numHashes
    && f.numBits == g.numBits && f.seed1 == g.seed1 && f.seed2 == g.seed2
  }

  /** A later state of a filter: no sub-filter and no bit is lost. */
  ghost predicate Later(s: Snap, t: Snap, prefix: Bytes) {
    s.meta.Some? ==>
      && t.meta.Some? && |s.meta.value.filters| <= |t.meta.value.filters|
      && (forall i :: 0 <= i < |s.meta.value.filters| ==> SameShape(s.meta.value.filters[i], t.meta.value.filters[i]))
      && (forall i: nat, pos: nat :: BitSet(s.data, prefix, i, pos) ==> BitSet(t.data, prefix, i, pos))
  }

  ghost predicate HeldAt(s: Snap, prefix: Bytes, item: Bytes, maths: Maths) {
    s.meta.Some? && Holds(s.data, prefix, s.meta.value, item, maths)
  }

  /** What was in the filter stays in it. */
  lemma LaterHolds(s: Snap, t: Snap, prefix: Bytes, item: Bytes, maths: Maths)
    requires Later(s, t, prefix) && HeldAt(s, prefix, item, maths)
    ensures HeldAt(t, prefix, item, maths)
  {
    hide BitSet;
    var m, m' := s.meta.value, t.meta.value;
    var i :| 0 <= i < |m.filters| && InFilter(s.data, prefix, m.filters[i], item, maths);
    assert SameShape(m.filters[i], m'.filters[i]);
    assert Positions(item, m'.filters[i], maths) == Positions(item, m.filters[i], maths);
    assert InFilter(t.data, prefix, m'.filters[i], item, maths);
  }

  lemma LaterTransitive(s: Snap, t: Snap, u: Snap, prefix: Bytes)
    requires Later(s, t, prefix) && Later(t, u, prefix)
    ensures Later(s, u, prefix)
  {
    hide BitSet;
    if s.meta.Some? {
      forall i | 0 <= i < |s.meta.value.filters| ensures SameShape(s.meta.value.filters[i], u.meta.value.filters[i]) {
        assert SameShape(s.meta.value.filters[i], t.meta.value.filters[i]);
        assert SameShape(t.meta.value.filters[i], u.meta.value.filters[i]);
      }
    }
  }

  /** No operation takes a sub-filter or a bit away, on any store. */
  lemma StepLater(s: Snap, op: Op, reply: Option<nat>, t: Snap, prefix: Bytes, b: Build)
    requires Steps(s, op, reply, t, prefix, b)
    ensures Later(s, t, prefix)
  {
    hide BitSet, Positions, InFilter, Unreadable, GrowthOverflows;
    if op.Add? && s.meta.Some? && reply.Some? {
      var m := s.meta.value;
      if reply == Some(0) {
        SamePagesBits(s.data, t.data, prefix);
      }
      assert forall i :: 0 <= i < |m.filters| ==> SameShape(m.filters[i], Kept(m, b.maths).filters[i]);
    }
  }

  /** An add takes effect: it needs no new sub-filter, or a new one is stored with it. */
  predicate Takes(m: Meta, reply: nat) {
    m.filters != [] && (NeedsExpansion(m) ==> reply == 1 && |m.filters| < MAX_FILTERS)
  }

  /** An item whose add took effect is held, on any store. */
  lemma AddHolds(s: Snap, item: Bytes, reply: nat, t: Snap, prefix: Bytes, b: Build)
    requires Steps(s, Add(item), Some(reply), t, prefix, b) && Takes(Target(s.meta, b), reply)
    ensures HeldAt(t, prefix, item, b.maths)
  {
    hide BitSet, Unreadable, GrowthOverflows;
    var m := Target(s.meta, b);
    var f, m' := Newest(Grown(m, b.maths)), t.meta.value;
    if reply == 0 {
      SamePagesBits(s.data, t.data, prefix);
      assert f == m'.filters[|m'.filters| - 1] && InFilter(t.data, prefix, f, item, b.maths);
    } else {
      var f' := m'.filters[|m'.filters| - 1];
      assert SameShape(f, f') && Positions(item, f', b.maths) == Positions(item, f, b.maths);
      assert InFilter(t.data, prefix, f', item, b.maths);
    }
  }

  lemma {:induction false} ChainLater(states: seq<Snap>, ops: seq<Op>, replies: seq<Option<nat>>, public: Bytes,
                                      prefix: ElementPrefix, b: Build, i: nat, j: nat)
    requires Chain(states, ops, replies, public, prefix, b) && i <= j <= |ops|
    ensures |states| == |ops| + 1 && Later(states[i], states[j], prefix.bytes)
    decreases j - i
  {
    hide Steps, Chain, Reads, Callable, Later;
    ChainAt(states, ops, replies, public, prefix, b, i);
    if i == j {
      LaterSame(states[i], prefix.bytes);
    } else {
      StepLater(states[i], ops[i], replies[i], states[i + 1], prefix.bytes, b);
      ChainLater(states, ops, replies, public, prefix, b, i + 1, j);
      LaterTransitive(states[i], states[i + 1], states[j], prefix.bytes);
    }
  }

  lemma LaterSame(s: Snap, prefix: Bytes)
    ensures Later(s, s, prefix)
  {
  }

  /**
    No false negative, in any run from any store: once an add has taken effect,
    no later query for its item is answered with 0.
   */
  lemma NoFalseNegative(states: seq<Snap>, ops: seq<Op>, replies: seq<Option<nat>>, public: Bytes,
                        prefix: ElementPrefix, b: Build, i: nat, j: nat)
    requires Chain(states, ops, replies, public, prefix, b) && i < j < |ops| == |replies| == |states| - 1
    requires ops[i].Add? && ops[j] == Exists(ops[i].item) && replies[i].Some?
    requires Takes(Target(states[i].meta, b), replies[i].value)
    ensures replies[j] != Some(0)
  {
    hide Chain, Reads, Callable, Later, Takes, Steps, HeldAt, Target;
    ChainAt(states, ops, replies, public, prefix, b, i);
    ChainAt(states, ops, replies, public, prefix, b, j);
    AddHolds(states[i], ops[i].item, replies[i].value, states[i + 1], prefix.bytes, b);
    ChainLater(states, ops, replies, public, prefix, b, i + 1, j);
    LaterHolds(states[i + 1], states[j], prefix.bytes, ops[i].item, b.maths);
    HeldIsFound(states[j], ops[i].item, replies[j], states[j + 1], prefix.bytes, b);
  }

  lemma HeldIsFound(s: Snap, item: Bytes, reply: Option<nat>, t: Snap, prefix: Bytes, b: Build)
    requires Steps(s, Exists(item), reply, t, prefix, b) && HeldAt(s, prefix, item, b.maths)
    ensures reply != Some(0)
  {
  }

  // ---- Nothing is made up ------------------------------------------------

  /** Operation number `i` set this bit of a sub-filter: an insertion whose item has that position there. */
  ghost predicate SetBy(states: seq<Snap>, ops: seq<Op>, replies: seq<Option<nat>>, b: Build, i: nat, id: nat,
                        pos: nat) {
    && i < |ops| && i < |states| && i < |replies| && ops[i].Add? && replies[i] == Some(1)
    && Target(states[i].meta, b).filters != []
    && var f := Newest(Grown(Target(states[i].meta, b), b.maths));
       f.id == id && Hashable(f) && pos in Positions(ops[i].item, f, b.maths)
  }

  /** A step sets no bits but the positions of the item that it inserts. */
  lemma StepSets(states: seq<Snap>, ops: seq<Op>, replies: seq<Option<nat>>, prefix: Bytes, b: Build, i: nat,
                 id: nat, pos: nat)
    requires i < |ops| == |replies| && |states| == |ops| + 1
    requires Steps(states[i], ops[i], replies[i], states[i + 1], prefix, b)
    requires BitSet(states[i + 1].data, prefix, id, pos)
    ensures BitSet(states[i].data, prefix, id, pos) || SetBy(states, ops, replies, b, i, id, pos)
  {
    hide BitSet, Positions, InFilter, Unreadable, GrowthOverflows, MetaOf, Kept;
    if states[i + 1].data != states[i].data && replies[i] != Some(1) {
      SamePagesBits(states[i].data, states[i + 1].data, prefix);
    } else if ops[i].Create? && replies[i] == Some(1) {
      SamePagesBits(states[i].data, states[i + 1].data, prefix);
    }
  }

  /** Every bit that a run leaves set was set before it or by one of its insertions. */
  lemma {:induction false} BitsStem(states: seq<Snap>, ops: seq<Op>, replies: seq<Option<nat>>, public: Bytes,
                                    prefix: ElementPrefix, b: Build, n: nat, id: nat, pos: nat)
    requires Chain(states, ops, replies, public, prefix, b) && n <= |ops| == |states| - 1
    requires BitSet(states[n].data, prefix.bytes, id, pos)
    ensures BitSet(states[0].data, prefix.bytes, id, pos)
      || exists i: nat :: i < n && SetBy(states, ops, replies, b, i, id, pos)
  {
    hide Steps, Chain, Reads, Callable, BitSet, SetBy;
    if n > 0 {
      ChainAt(states, ops, replies, public, prefix, b, n - 1);
      StepSets(states, ops, replies, prefix.bytes, b, n - 1, id, pos);
      if BitSet(states[n - 1].data, prefix.bytes, id, pos) {
        BitsStem(states, ops, replies, public, prefix, b, n - 1, id, pos);
      }
    }
  }

  /**
    No unfounded yes, in any run from any store: when a query is answered with 1,
    one sub-filter has every position of the item set, each before the run or by
    an insertion of the run into that sub-filter.
   */
  lemma YesIsFounded(states: seq<Snap>, ops: seq<Op>, replies: seq<Option<nat>>, public: Bytes,
                     prefix: ElementPrefix, b: Build, n: nat)
    requires Chain(states, ops, replies, public, prefix, b) && n < |ops| == |replies| == |states| - 1
    requires ops[n].Exists? && replies[n] == Some(1)
    ensures states[n].meta.Some?
      && exists k :: 0 <= k < |states[n].meta.value.filters|
           && var f := states[n].meta.value.filters[k];
              Hashable(f) && forall pos :: pos in Positions(ops[n].item, f, b.maths) ==>
                BitSet(states[0].data, prefix.bytes, f.id, pos)
                || exists i: nat :: i < n && SetBy(states, ops, replies, b, i, f.id, pos)
  {
    ChainAt(states, ops, replies, public, prefix, b, n);
    hide Chain, Reads, Callable, BitSet, SetBy, Positions, QueryPanics;
    var m := states[n].meta.value;
    var k :| 0 <= k < |m.filters| && InFilter(states[n].data, prefix.bytes, m.filters[k], ops[n].item, b.maths);
    var f := m.filters[k];
    forall pos | pos in Positions(ops[n].item, f, b.maths)
      ensures BitSet(states[0].data, prefix.bytes, f.id, pos)
        || exists i: nat :: i < n && SetBy(states, ops, replies, b, i, f.id, pos)
    {
      assert BitSet(states[n].data, prefix.bytes, f.id, pos);
      BitsStem(states, ops, replies, public, prefix, b, n, f.id, pos);
    }
  }

  // ---- What is counted ---------------------------------------------------

  /** How many insertions the filter records. */
  function TotalUpTo(m: Meta, n: nat): nat
    requires n <= |m.filters|
  {
    if n == 0 then 0 else TotalUpTo(m, n - 1) + m.filters[n - 1].inserted
  }

  function Total(m: Meta): nat { TotalUpTo(m, |m.filters|) }

  ghost function TotalAt(s: Snap): nat { if s.meta.Some? then Total(s.meta.value) else 0 }

  lemma {:induction false} TotalSame(m: Meta, m': Meta, n: nat)
    requires n <= |m.filters| && n <= |m'.filters|
      && forall i :: 0 <= i < n ==> m.filters[i].inserted == m'.filters[i].inserted
    ensures TotalUpTo(m, n) == TotalUpTo(m', n)
  {
    if n > 0 { TotalSame(m, m', n - 1); }
  }

  /** An insertion that took place is counted once, unless its count wraps around. */
  lemma TotalCounted(m: Meta, maths: Maths)
    requires m.filters != [] && Newest(Grown(m, maths)).inserted + 1 < WORD
    ensures Total(Counted(Grown(m, maths))) == Total(m) + 1
  {
    var g := Grown(m, maths);
    var c := Counted(g);
    TotalSame(g, c, |g.filters| - 1);
    TotalSame(m, g, |m.filters|);
  }

  /** Only the count of a filter that does not scale can run out of room. */
  ghost predicate RoomFor(s: Snap, n: nat) {
    s.meta.Some? && s.meta.value.nonScaling && s.meta.value.filters != [] ==> Newest(s.meta.value).inserted + n < WORD
  }

  ghost predicate CappedAt(s: Snap) { s.meta.Some? && Capped(s.meta.value) }

  /** The operation recorded an insertion. */
  ghost predicate Counts(s: Snap, op: Op, reply: Option<nat>) { op.Add? && reply == Some(1) && !CappedAt(s) }

  lemma FreshTotal(setup: Setup, maths: Maths)
    ensures var m := MetaOf(setup, maths); |m.filters| == 1 && Newest(m).inserted == 0 && Total(m) == 0
  {
    var m := MetaOf(setup, maths);
    assert TotalUpTo(m, 0) == 0;
  }

  lemma StepTotal(s: Snap, op: Op, reply: Option<nat>, t: Snap, public: Bytes, prefix: ElementPrefix, b: Build, n: nat)
    requires Steps(s, op, reply, t, prefix.bytes, b) && Reads(s.data, public, prefix, s.meta) && RoomFor(s, n + 1)
      && n + 1 < WORD
    ensures TotalAt(t) == TotalAt(s) + (if Counts(s, op, reply) then 1 else 0) && RoomFor(t, n)
  {
    match op
    case Add(item) =>
      if s.meta.Some? { ReadsFit(s.data, public, prefix, s.meta.value); }
      FreshTotal(DefaultSetup(b), b.maths);
      hide Total, Reads, MetaOf, Inserted, AddPanics;
      if reply.Some? {
        InsertTotal(s.data, t.data, prefix.bytes, Target(s.meta, b), t.meta.value, item, b.maths, reply.value);
      }
    case Exists(_) =>
    case Create(setup) => FreshTotal(setup, b.maths);
  }

  lemma InsertTotal(data: Data, data': Data, prefix: Bytes, m: Meta, m': Meta, item: Bytes, maths: Maths, reply: nat)
    requires m.filters != [] && Inserted(data, data', prefix, m, m', item, maths, reply)
    requires (m.nonScaling ==> Newest(m).inserted + 1 < WORD)
      && (Newest(m).capacity < Pow256(8) || Newest(m).inserted + 1 < WORD)
    ensures m'.filters != [] && m'.nonScaling == m.nonScaling
      && Total(m') == Total(m) + (if reply == 1 && !Capped(m) then 1 else 0)
    ensures m.nonScaling ==> Newest(m').inserted <= Newest(m).inserted + 1
  {
    hide InFilter, BitsAdded, PagesStay, SamePages, Total, Positions;
    if reply == 1 {
      RoomToCount(m, maths);
      TotalCounted(m, maths);
    }
  }

  lemma RoomToCount(m: Meta, maths: Maths)
    requires m.filters != [] && (m.nonScaling ==> Newest(m).inserted + 1 < WORD)
    requires Newest(m).capacity < Pow256(8) || Newest(m).inserted + 1 < WORD
    ensures Newest(Grown(m, maths)).inserted + 1 < WORD
  {
    assert Pow256(8) == WORD;
  }

  /** How many operations of a run recorded an insertion. */
  ghost function Insertions(states: seq<Snap>, ops: seq<Op>, replies: seq<Option<nat>>, n: nat): nat
    requires n <= |ops| && n <= |replies| && n <= |states|
  {
    if n == 0 then 0
    else Insertions(states, ops, replies, n - 1)
         + (if Counts(states[n - 1], ops[n - 1], replies[n - 1]) then 1 else 0)
  }

  /** In any run from any store, the recorded total grows by the adds that replied 1 before the cap. */
  lemma {:induction false} TotalGrows(states: seq<Snap>, ops: seq<Op>, replies: seq<Option<nat>>, public: Bytes,
                                      prefix: ElementPrefix, b: Build, n: nat)
    requires Chain(states, ops, replies, public, prefix, b) && n <= |ops| == |replies| == |states| - 1
    requires RoomFor(states[0], |ops|) && |ops| < WORD
    ensures TotalAt(states[n]) == TotalAt(states[0]) + Insertions(states, ops, replies, n)
      && RoomFor(states[n], |ops| - n)
  {
    hide Chain, Steps, Reads, Callable, TotalAt, RoomFor, Counts;
    if n > 0 {
      TotalGrows(states, ops, replies, public, prefix, b, n - 1);
      ChainAt(states, ops, replies, public, prefix, b, n - 1);
      StepTotal(states[n - 1], ops[n - 1], replies[n - 1], states[n], public, prefix, b, |ops| - n);
    }
  }

  // ---- Filters these commands made ---------------------------------------

  ghost predicate GoodFilter(f: SubFilter, i: nat) { f.id == i && f.numBits >= 1 && 1 <= f.numHashes <= MAX_HASHES }

  ghost predicate AllGood(m: Meta) { forall i :: 0 <= i < |m.filters| ==> GoodFilter(m.filters[i], i) }

  function AtLeastOne(n: nat): nat { if n == 0 then 1 else n }

  /** In a scaling filter every sub-filter but the newest is full, and none is overfull. */
  ghost predicate Saturated(m: Meta) {
    !m.nonScaling ==>
      && (forall i :: 0 <= i < |m.filters| - 1 ==> m.filters[i].inserted >= m.filters[i].capacity)
      && (forall i :: 0 <= i < |m.filters| ==> m.filters[i].inserted <= AtLeastOne(m.filters[i].capacity))
  }

  ghost predicate GoodMeta(m: Meta) { 1 <= |m.filters| <= MAX_FILTERS && Saturated(m) && AllGood(m) }

  ghost predicate NoPagesFrom(data: Data, prefix: Bytes, k: nat) {
    forall id: nat, page: nat :: id >= k ==> PageKey(prefix, id, page) !in data
  }

  /** A filter as the commands leave it, or none: complete pages, and none for sub-filters to come. */
  ghost predicate Tidy(s: Snap, prefix: Bytes) {
    match s.meta
    case None => NoPagesFrom(s.data, prefix, 0)
    case Some(m) =>
      GoodMeta(m) && PagesOK(s.data, prefix) && (|m.filters| < MAX_FILTERS ==> NoPagesFrom(s.data, prefix, |m.filters|))
  }

  lemma FreshGood(setup: Setup, maths: Maths)
    requires InRange(maths) && SetupFits(setup)
    ensures GoodMeta(MetaOf(setup, maths)) && |MetaOf(setup, maths).filters| == 1
  {
    var m := MetaOf(setup, maths);
    FreshSize(setup.capacity, setup.rate, ExpansionOf(setup), setup.nonScaling, maths);
    assert GoodFilter(m.filters[0], 0);
  }

  /** The target of an add to a tidy key, with its pages. */
  lemma TidyTarget(s: Snap, prefix: Bytes, b: Build)
    requires Tidy(s, prefix) && GoodBuild(b)
    ensures var m := Target(s.meta, b);
      GoodMeta(m) && PagesOK(s.data, prefix) && (|m.filters| < MAX_FILTERS ==> NoPagesFrom(s.data, prefix, |m.filters|))
  {
    if s.meta.None? {
      FreshGood(DefaultSetup(b), b.maths);
    }
  }

  /** A new sub-filter is numbered and sized like the others, and empty. */
  lemma GrowthGood(m: Meta, maths: Maths)
    requires GoodMeta(m) && InRange(maths)
    ensures var g := Grown(m, maths);
      && AllGood(g) && g.nonScaling == m.nonScaling && |m.filters| <= |g.filters| <= |m.filters| + 1
      && (NeedsExpansion(m) ==> |g.filters| == |m.filters| + 1 && g.filters[..|m.filters|] == m.filters
                                && Newest(g).inserted == 0)
  {
    hide Saturated;
    var g := Grown(m, maths);
    assert GoodFilter(Newest(m), |m.filters| - 1);
    forall i | 0 <= i < |g.filters| ensures GoodFilter(g.filters[i], i) {
      if i < |m.filters| { assert GoodFilter(m.filters[i], i); }
    }
  }

  /** Counting an insertion in a sub-filter with room keeps a filter in order. */
  lemma CountedGood(g: Meta)
    requires 1 <= |g.filters| <= MAX_FILTERS && AllGood(g) && Saturated(g)
    requires g.nonScaling || Newest(g).inserted < AtLeastOne(Newest(g).capacity)
    ensures GoodMeta(Counted(g))
  {
    var c := Counted(g);
    forall i | 0 <= i < |c.filters| ensures GoodFilter(c.filters[i], i) {
      assert GoodFilter(g.filters[i], i);
    }
  }

  /** Growth keeps the sub-filters numbered, sized and saturated. */
  lemma GrownGood(m: Meta, maths: Maths)
    requires GoodMeta(m) && InRange(maths)
    ensures var g := Grown(m, maths);
      GoodFilter(Newest(g), |g.filters| - 1)
        && |m.filters| <= |g.filters| <= |m.filters| + 1 && GoodMeta(Kept(m, maths))
  {
    var g := Grown(m, maths);
    GrowthGood(m, maths);
    if !Capped(m) {
      hide GoodFilter, InRange, Counted, NewSubFilter;
      assert |g.filters| > |m.filters| ==>
        forall i :: 0 <= i < |m.filters| ==> g.filters[i] == g.filters[..|m.filters|][i];
      CountedGood(g);
    }
  }

  /** A sub-filter without pages has no bits. */
  lemma UnusedFilter(data: Data, prefix: Bytes, f: SubFilter, item: Bytes, maths: Maths)
    requires NoPagesFrom(data, prefix, f.id) && f.numBits >= 1 && f.numHashes >= 1
    ensures !InFilter(data, prefix, f, item, maths)
  {
    var pos := Positions(item, f, maths)[0];
    ZeroPageBit(pos % 32768);
    assert !BitSet(data, prefix, f.id, pos);
  }

  /** On a tidy key an add panics on checked sums only, and below the cap it takes effect. */
  lemma TidyAdd(s: Snap, item: Bytes, prefix: Bytes, b: Build)
    requires Tidy(s, prefix) && GoodBuild(b)
    ensures var m := Target(s.meta, b);
      && m.filters != []
      && (AddPanics(s.data, prefix, m, item, b) ==> b.checked)
      && (NeedsExpansion(m) && |m.filters| < MAX_FILTERS ==>
        !InFilter(s.data, prefix, Newest(Grown(m, b.maths)), item, b.maths))
  {
    hide Tidy, PagesOK, NoPagesFrom, Target, InFilter, Unreadable, Saturated, InRange;
    TidyTarget(s, prefix, b);
    var m := Target(s.meta, b);
    GrownGood(m, b.maths);
    var f := Newest(Grown(m, b.maths));
    CompletePages(s.data, prefix, f, item, b.maths);
    if NeedsExpansion(m) && |m.filters| < MAX_FILTERS {
      UnusedFilter(s.data, prefix, f, item, b.maths);
    }
  }

  lemma TidyPages(data: Data, data': Data, prefix: Bytes, id: nat)
    requires PagesStay(data, data', prefix, id)
    ensures PagesOK(data, prefix) ==> PagesOK(data', prefix)
    ensures forall k: nat :: NoPagesFrom(data, prefix, k) && id < k ==> NoPagesFrom(data', prefix, k)
  {
    hide PageKey, PageAt;
  }

  lemma SameTidyPages(data: Data, data': Data, prefix: Bytes)
    requires SamePages(data, data', prefix)
    ensures PagesOK(data, prefix) ==> PagesOK(data', prefix)
    ensures forall k: nat :: NoPagesFrom(data, prefix, k) ==> NoPagesFrom(data', prefix, k)
  {
    SamePagesBits(data, data', prefix);
    hide PageKey, PageAt;
    forall i: nat, n: nat ensures PageKey(prefix, i, n) in data' <==> PageKey(prefix, i, n) in data {
      assert Lookup(data', PageKey(prefix, i, n)) == Lookup(data, PageKey(prefix, i, n));
    }
  }

  lemma FewerPages(data: Data, prefix: Bytes, j: nat, k: nat)
    requires NoPagesFrom(data, prefix, j) && j <= k
    ensures NoPagesFrom(data, prefix, k)
  {
  }

  lemma NoPagesComplete(data: Data, prefix: Bytes)
    requires NoPagesFrom(data, prefix, 0)
    ensures PagesOK(data, prefix)
  {
  }

  /** An operation leaves a tidy key tidy. */
  lemma StepTidy(s: Snap, op: Op, reply: Option<nat>, t: Snap, prefix: Bytes, b: Build)
    requires Tidy(s, prefix) && GoodBuild(b) && Callable(op) && Steps(s, op, reply, t, prefix, b)
    ensures Tidy(t, prefix)
  {
    hide PagesOK, NoPagesFrom, InFilter, BitsAdded, PagesStay, SamePages, Saturated, AddPanics, GoodFilter, InRange;
    match op
    case Add(item) =>
      var m := Target(s.meta, b);
      TidyTarget(s, prefix, b);
      GrownGood(m, b.maths);
      if reply == Some(1) {
        var f := Newest(Grown(m, b.maths));
        assert f.id <= |m.filters| by { NewestId(m, b.maths); }
        TidyPages(s.data, t.data, prefix, f.id);
        if |t.meta.value.filters| < MAX_FILTERS {
          FewerPages(s.data, prefix, |m.filters|, |t.meta.value.filters|);
          NewestId(m, b.maths);
        }
      } else if reply == Some(0) {
        SameTidyPages(s.data, t.data, prefix);
      }
    case Exists(_) =>
    case Create(setup) =>
      if s.meta.None? {
        FreshGood(setup, b.maths);
        NoPagesComplete(s.data, prefix);
        SameTidyPages(s.data, t.data, prefix);
        FewerPages(t.data, prefix, 0, 1);
      }
  }

  lemma NewestId(m: Meta, maths: Maths)
    requires GoodMeta(m) && InRange(maths)
    ensures Newest(Grown(m, maths)).id == |Grown(m, maths).filters| - 1 <= |m.filters|
    ensures !Capped(m) ==> |Kept(m, maths).filters| == |Grown(m, maths).filters|
  {
    GrownGood(m, maths);
  }

  lemma {:induction false} ChainTidy(states: seq<Snap>, ops: seq<Op>, replies: seq<Option<nat>>, public: Bytes,
                                     prefix: ElementPrefix, b: Build, n: nat)
    requires Chain(states, ops, replies, public, prefix, b) && n <= |ops| == |states| - 1
    requires Tidy(states[0], prefix.bytes) && GoodBuild(b)
    ensures Tidy(states[n], prefix.bytes)
  {
    hide Chain, Steps, Reads, Callable, Tidy, InRange;
    if n > 0 {
      ChainTidy(states, ops, replies, public, prefix, b, n - 1);
      ChainAt(states, ops, replies, public, prefix, b, n - 1);
      StepTidy(states[n - 1], ops[n - 1], replies[n - 1], states[n], prefix.bytes, b);
    }
  }

  lemma TidyQuery(s: Snap, item: Bytes, prefix: Bytes, maths: Maths)
    requires Tidy(s, prefix) && s.meta.Some?
    ensures !QueryPanics(s.data, prefix, s.meta.value, item, maths)
  {
    hide PagesOK, ProbePanics, NoPagesFrom;
    var m := s.meta.value;
    forall i | 0 <= i < |m.filters| ensures !ProbePanics(s.data, prefix, m.filters[i], item, maths) {
      assert GoodFilter(m.filters[i], i);
      CompletePages(s.data, prefix, m.filters[i], item, maths);
    }
  }

  /** In a run from a tidy key without checked sums nothing panics, and nothing ever does for a query. */
  lemma TidyNeverPanics(states: seq<Snap>, ops: seq<Op>, replies: seq<Option<nat>>, public: Bytes,
                        prefix: ElementPrefix, b: Build, i: nat)
    requires Chain(states, ops, replies, public, prefix, b) && i < |ops| == |replies| == |states| - 1
    requires Tidy(states[0], prefix.bytes) && GoodBuild(b)
    ensures replies[i] == None ==> b.checked && ops[i].Add?
  {
    ChainTidy(states, ops, replies, public, prefix, b, i);
    ChainAt(states, ops, replies, public, prefix, b, i);
    hide Chain, Reads, Tidy, InRange, Inserted, AddPanics, QueryPanics, Holds;
    match ops[i]
    case Add(item) => TidyAdd(states[i], item, prefix.bytes, b);
    case Exists(item) => if states[i].meta.Some? { TidyQuery(states[i], item, prefix.bytes, b.maths); }
    case Create(_) =>
  }

  /** From a tidy key, a query after an add of its item below the cap is answered with 1. */
  lemma FoundLater(states: seq<Snap>, ops: seq<Op>, replies: seq<Option<nat>>, public: Bytes, prefix: ElementPrefix,
                   b: Build, i: nat, j: nat)
    requires Chain(states, ops, replies, public, prefix, b) && i < j < |ops| == |replies| == |states| - 1
    requires Tidy(states[0], prefix.bytes) && GoodBuild(b)
    requires ops[i].Add? && ops[j] == Exists(ops[i].item) && replies[i].Some? && !CappedAt(states[i])
    ensures replies[j] == Some(1)
  {
    ChainTidy(states, ops, replies, public, prefix, b, i);
    ChainAt(states, ops, replies, public, prefix, b, i);
    ChainAt(states, ops, replies, public, prefix, b, j);
    TidyNeverPanics(states, ops, replies, public, prefix, b, j);
    TakesBelowCap(states[i], ops[i].item, replies[i].value, states[i + 1], prefix.bytes, b);
    NoFalseNegative(states, ops, replies, public, prefix, b, i, j);
  }

  lemma TakesBelowCap(s: Snap, item: Bytes, reply: nat, t: Snap, prefix: Bytes, b: Build)
    requires Tidy(s, prefix) && GoodBuild(b) && Steps(s, Add(item), Some(reply), t, prefix, b)
    ensures Takes(Target(s.meta, b), reply) <==> !CappedAt(s)
  {
    hide Tidy, InFilter, BitsAdded, PagesStay, SamePages, AddPanics, InRange, MetaOf;
    TidyAdd(s, item, prefix, b);
    FreshTotal(DefaultSetup(b), b.maths);
  }

  // ---- The cap -----------------------------------------------------------

  /** The two states answer every query alike. */
  ghost predicate SameHeld(s: Snap, t: Snap, prefix: Bytes, maths: Maths) {
    t.meta == s.meta && forall x :: HeldAt(t, prefix, x, maths) <==> HeldAt(s, prefix, x, maths)
  }

  /** Bits of a sub-filter beyond the cap belong to no stored one. */
  lemma CappedKeeps(data: Data, data': Data, prefix: Bytes, m: Meta, ps: seq<nat>, x: Bytes, maths: Maths)
    requires GoodMeta(m) && BitsAdded(data, data', prefix, |m.filters|, ps)
    ensures Holds(data', prefix, m, x, maths) <==> Holds(data, prefix, m, x, maths)
  {
    hide BitSet, Positions, Saturated;
    forall i | 0 <= i < |m.filters|
      ensures InFilter(data', prefix, m.filters[i], x, maths) <==> InFilter(data, prefix, m.filters[i], x, maths)
    {
      assert GoodFilter(m.filters[i], i);
    }
  }

  /** At the cap of a tidy key no operation changes what is stored or how a query is answered. */
  lemma CapStep(s: Snap, op: Op, reply: Option<nat>, t: Snap, prefix: Bytes, b: Build)
    requires Tidy(s, prefix) && CappedAt(s) && GoodBuild(b) && Steps(s, op, reply, t, prefix, b)
    ensures SameHeld(s, t, prefix, b.maths)
  {
    if op.Add? && reply.Some? {
      hide BitSet, InFilter, PagesOK, NoPagesFrom, AddPanics, Saturated, GoodFilter, InRange, Holds, Positions;
      var m := s.meta.value;
      var f := Newest(Grown(m, b.maths));
      NewestId(m, b.maths);
      forall x ensures Holds(t.data, prefix, m, x, b.maths) <==> Holds(s.data, prefix, m, x, b.maths) {
        if reply == Some(1) {
          CappedKeeps(s.data, t.data, prefix, m, Positions(op.item, f, b.maths), x, b.maths);
        } else {
          SamePagesHolds(s.data, t.data, prefix, m, x, b.maths);
        }
      }
    }
  }

  lemma SamePagesHolds(data: Data, data': Data, prefix: Bytes, m: Meta, x: Bytes, maths: Maths)
    requires SamePages(data, data', prefix)
    ensures Holds(data', prefix, m, x, maths) <==> Holds(data, prefix, m, x, maths)
  {
    SamePagesBits(data, data', prefix);
    hide BitSet, Positions, SamePages;
    forall i | 0 <= i < |m.filters|
      ensures InFilter(data', prefix, m.filters[i], x, maths) <==> InFilter(data, prefix, m.filters[i], x, maths)
    {
    }
  }

  /** An add to a tidy key is lost exactly at the cap, when no sub-filter happens to have the item. */
  lemma AddLost(s: Snap, item: Bytes, reply: nat, t: Snap, prefix: Bytes, b: Build)
    requires Tidy(s, prefix) && GoodBuild(b) && Steps(s, Add(item), Some(reply), t, prefix, b)
    ensures !HeldAt(t, prefix, item, b.maths) <==> CappedAt(s) && !HeldAt(s, prefix, item, b.maths)
  {
    TakesBelowCap(s, item, reply, t, prefix, b);
    hide Tidy, Steps, HeldAt, Takes, CappedAt, InRange;
    if CappedAt(s) {
      CapStep(s, Add(item), Some(reply), t, prefix, b);
    } else {
      AddHolds(s, item, reply, t, prefix, b);
    }
  }

  /** From the cap on a run from a tidy key changes nothing any more: every query is answered as at the cap. */
  lemma {:induction false} CapFreezes(states: seq<Snap>, ops: seq<Op>, replies: seq<Option<nat>>, public: Bytes,
                                      prefix: ElementPrefix, b: Build, i: nat, j: nat)
    requires Chain(states, ops, replies, public, prefix, b) && i <= j <= |ops| == |states| - 1
    requires Tidy(states[0], prefix.bytes) && GoodBuild(b) && CappedAt(states[i])
    ensures SameHeld(states[i], states[j], prefix.bytes, b.maths) && CappedAt(states[j])
    decreases j - i
  {
    hide Chain, Steps, Reads, Callable, Tidy, InRange, HeldAt, Capped;
    if i < j {
      CapFreezes(states, ops, replies, public, prefix, b, i, j - 1);
      ChainTidy(states, ops, replies, public, prefix, b, j - 1);
      ChainAt(states, ops, replies, public, prefix, b, j - 1);
      CapStep(states[j - 1], ops[j - 1], replies[j - 1], states[j], prefix.bytes, b);
    }
  }

  // ---- Commands ----------------------------------------------------------

  /** BF.RESERVE: an existing key is refused, whatever it holds. */
  method Reserve(tx: Tx, public: Bytes, prefix: ElementPrefix, setup: Setup, b: Build) returns (r: Result<(), DbError>)
    requires Placed(public, prefix) && GoodBuild(b) && SetupFits(setup)
    modifies tx
    ensures public in old(tx.data) ==> r == Err(KeyExists) && tx.data == old(tx.data)
    ensures public !in old(tx.data) ==>
      && r.Ok? && Steps(Snap(old(tx.data), None), Create(setup),
        Some(1), Snap(tx.data, Some(MetaOf(setup, b.maths))), prefix.bytes, b)
      && Reads(tx.data, public, prefix, Some(MetaOf(setup, b.maths)))
    ensures OnlyValue(old(tx.data), tx.data, public, prefix.bytes)
  {
    OnlyValueSame(tx.data, public, prefix.bytes);
    if tx.Get(public).Some? {
      return Err(KeyExists);
    }
    hide MetaOf, SamePages, Placed, InRange, OnlyValue;
    CreateFilter(tx, public, prefix, setup, b);
    return Ok(());
  }

  function Adds(items: seq<Bytes>): seq<Op> { seq(|items|, i requires 0 <= i < |items| => Add(items[i])) }

  function Somes(replies: seq<nat>): seq<Option<nat>> {
    seq(|replies|, i requires 0 <= i < |replies| => Some(replies[i]))
  }

  lemma AddsNext(items: seq<Bytes>, i: nat, replies: seq<nat>, n: nat)
    requires i < |items|
    ensures Adds(items[..i + 1]) == Adds(items[..i]) + [Add(items[i])]
      && Somes(replies + [n]) == Somes(replies) + [Some(n)]
  {
  }

  /**
    What adding several items in one command amounts to: a chain of adds that
    all reply, and either all items are through or the next one panics, and then
    the whole command leaves no trace.
   */
  ghost predicate AddsMany(states: seq<Snap>, items: seq<Bytes>, r: Result<seq<nat>, DbError>, replies: seq<nat>,
                           data: Data, public: Bytes, prefix: ElementPrefix, b: Build) {
    && |replies| <= |items| && Chain(states, Adds(items[..|replies|]), Somes(replies), public, prefix, b)
    && match r
       case Ok(all) => |replies| == |items| && all == replies && data == states[|replies|].data
       case Err(e) =>
         && e == Panic && |replies| < |items| && data == states[0].data
         && AddPanics(states[|replies|].data, prefix.bytes, Target(states[|replies|].meta, b), items[|replies|], b)
  }

  /** BF.MADD: adds one item after another in one transaction. */
  method AddMany(tx: Tx, public: Bytes, prefix: ElementPrefix, items: seq<Bytes>, b: Build, ghost m: Option<Meta>)
    returns (r: Result<seq<nat>, DbError>, ghost states: seq<Snap>, ghost done: seq<nat>)
    requires Reads(tx.data, public, prefix, m) && Placed(public, prefix) && GoodBuild(b)
    modifies tx
    ensures AddsMany(states, items, r, done, tx.data, public, prefix, b) && states[0] == Snap(old(tx.data), m)
    ensures OnlyValue(old(tx.data), tx.data, public, prefix.bytes)
  {
    var saved := tx.data;
    ghost var now := m;
    OnlyValueSame(saved, public, prefix.bytes);
    hide Reads, OnlyValue, Placed, InRange, Steps, Chain, Adds, Somes, AddPanics, Target;
    var replies: seq<nat> := [];
    states := [Snap(saved, m)];
    ChainStart(states[0], public, prefix, b);
    assert Adds(items[..0]) == [] && Somes(replies) == [] by { NothingAdded(items); }
    for i := 0 to |items|
      invariant |states| == i + 1 && |replies| == i && states[i] == Snap(tx.data, now) && states[0] == Snap(saved, m)
      invariant Chain(states, Adds(items[..i]), Somes(replies), public, prefix, b)
        && Reads(tx.data, public, prefix, now)
      invariant OnlyValue(saved, tx.data, public, prefix.bytes)
    {
      ghost var before := tx.data;
      var one; ghost var after;
      one, after := AddOne(tx, public, prefix, items[i], b, now);
      OnlyValueChain(saved, before, tx.data, public, prefix.bytes);
      match one
      case Err(e) =>
        tx.data := saved;
        OnlyValueSame(saved, public, prefix.bytes);
        return Err(e), states, replies;
      case Ok(n) =>
        AddSteps(states[i], items[i], n, Snap(tx.data, Some(after)), prefix.bytes, b);
        ChainNext(states, Adds(items[..i]), Somes(replies), public, prefix, b, Add(items[i]), Some(n),
                  Snap(tx.data, Some(after)));
        AddsNext(items, i, replies, n);
        now := Some(after);
        replies, states := replies + [n], states + [Snap(tx.data, now)];
    }
    return Ok(replies), states, replies;
  }

  lemma NothingAdded(items: seq<Bytes>)
    ensures Adds(items[..0]) == [] && Somes([]) == []
  {
  }

  lemma AddSteps(s: Snap, item: Bytes, n: nat, t: Snap, prefix: Bytes, b: Build)
    requires !AddPanics(s.data, prefix, Target(s.meta, b), item, b) && t.meta.Some? && Target(s.meta, b).filters != []
    requires Inserted(s.data, t.data, prefix, Target(s.meta, b), t.meta.value, item, b.maths, n)
    ensures Steps(s, Add(item), Some(n), t, prefix, b) && Callable(Add(item))
  {
  }

  /**
    BF.INSERT: a missing filter is created as asked, unless that is ruled out,
    and the items are added.
   */
  method Insert(tx: Tx, public: Bytes, prefix: ElementPrefix, setup: Setup, noCreate: bool, items: seq<Bytes>, b: Build,
                ghost m: Option<Meta>)
    returns (r: Result<seq<nat>, DbError>, ghost first: Snap, ghost states: seq<Snap>, ghost done: seq<nat>)
    requires Reads(tx.data, public, prefix, m) && Placed(public, prefix) && GoodBuild(b) && SetupFits(setup)
    modifies tx
    ensures m.None? && noCreate ==> r == Err(KeyNotFound) && tx.data == old(tx.data)
    ensures !(m.None? && noCreate) ==>
      && Steps(Snap(old(tx.data), m), Create(WithDefaults(setup, b)), Some(if m.None? then 1 else 0),
               first, prefix.bytes, b)
      && (r.Ok? ==> AddsMany(states, items, r, done, tx.data, public, prefix, b))
      && (r.Err? ==> AddsMany(states, items, r, done, first.data, public, prefix, b) && tx.data == old(tx.data))
      && states != [] && states[0] == first
    ensures OnlyValue(old(tx.data), tx.data, public, prefix.bytes)
  {
    var saved := tx.data;
    first, states, done := Snap(saved, m), [], [];
    OnlyValueSame(saved, public, prefix.bytes);
    assert SetupFits(WithDefaults(setup, b));
    hide Reads, MetaOf, SamePages, Placed, InRange, OnlyValue, AddsMany, WithDefaults, SetupFits;
    var fetched := FetchMeta(tx, public, prefix, m);
    if fetched.Err? {
      if noCreate {
        r := Err(KeyNotFound);
        return;
      }
      CreateFilter(tx, public, prefix, WithDefaults(setup, b), b);
      first := Snap(tx.data, Some(MetaOf(WithDefaults(setup, b), b.maths)));
    }
    ghost var created := tx.data;
    r, states, done := AddMany(tx, public, prefix, items, b, first.meta);
    OnlyValueChain(saved, created, tx.data, public, prefix.bytes);
    if r.Err? {
      hide Steps;
      PanicLeaves(states, items, r, done, tx.data, public, prefix, b);
      tx.data := saved;
      OnlyValueSame(saved, public, prefix.bytes);
    }
    StatesThere(states, items, r, done, if r.Err? then first.data else tx.data, public, prefix, b);
  }

  lemma PanicLeaves(states: seq<Snap>, items: seq<Bytes>, r: Result<seq<nat>, DbError>, replies: seq<nat>, data: Data,
                    public: Bytes, prefix: ElementPrefix, b: Build)
    requires AddsMany(states, items, r, replies, data, public, prefix, b) && r.Err?
    ensures states != [] && data == states[0].data
  {
  }

  lemma StatesThere(states: seq<Snap>, items: seq<Bytes>, r: Result<seq<nat>, DbError>, replies: seq<nat>, data: Data,
                    public: Bytes, prefix: ElementPrefix, b: Build)
    requires AddsMany(states, items, r, replies, data, public, prefix, b)
    ensures states != []
  {
  }

  /** After BF.MADD on a tidy key, every item added below the cap is held, and so is what was held before. */
  lemma AddsHold(states: seq<Snap>, items: seq<Bytes>, replies: seq<nat>, data: Data, public: Bytes,
                 prefix: ElementPrefix, b: Build, i: nat, x: Bytes)
    requires AddsMany(states, items, Ok(replies), replies, data, public, prefix, b) && i < |items|
    requires Tidy(states[0], prefix.bytes) && GoodBuild(b)
    ensures !CappedAt(states[i]) ==> HeldAt(states[|items|], prefix.bytes, items[i], b.maths)
    ensures HeldAt(states[0], prefix.bytes, x, b.maths) ==> HeldAt(states[|items|], prefix.bytes, x, b.maths)
  {
    var ops, somes, n := Adds(items), Somes(replies), |items|;
    assert items[..n] == items && ops[i] == Add(items[i]) && somes[i] == Some(replies[i]);
    hide Chain, Steps, Tidy, HeldAt, Later, CappedAt, InRange, Takes;
    ChainAt(states, ops, somes, public, prefix, b, i);
    ChainLater(states, ops, somes, public, prefix, b, 0, n);
    ChainLater(states, ops, somes, public, prefix, b, i + 1, n);
    if HeldAt(states[0], prefix.bytes, x, b.maths) {
      LaterHolds(states[0], states[n], prefix.bytes, x, b.maths);
    }
    if !CappedAt(states[i]) {
      ChainTidy(states, ops, somes, public, prefix, b, i);
      TakesBelowCap(states[i], items[i], replies[i], states[i + 1], prefix.bytes, b);
      AddHolds(states[i], items[i], replies[i], states[i + 1], prefix.bytes, b);
      LaterHolds(states[i + 1], states[n], prefix.bytes, items[i], b.maths);
    }
  }

  // ---- BF.INFO -----------------------------------------------------------

  datatype Info = Info(inserted: nat, capacity: nat, size: nat, filters: nat, expansion: nat)

  function CapacityUpTo(m: Meta, n: nat): nat
    requires n <= |m.filters|
  {
    if n == 0 then 0 else CapacityUpTo(m, n - 1) + m.filters[n - 1].capacity
  }

  function SizeUpTo(m: Meta, n: nat): nat
    requires n <= |m.filters|
  {
    if n == 0 then 0 else SizeUpTo(m, n - 1) + m.filters[n - 1].numBits
  }

  /** The sum of some words, as a word: what does not fit panics or, unchecked, wraps around. */
  function WordSum(sum: nat, checked: bool): Option<nat> { if checked && sum >= WORD then None else Some(sum % WORD) }

  method AddWord(total: nat, x: nat, checked: bool, ghost sum: nat) returns (r: Option<nat>)
    requires WordSum(sum, checked) == Some(total)
    ensures r == WordSum(sum + x, checked)
  {
    if checked && total + x >= WORD {
      return None;
    }
    return Some((total + x) % WORD);
  }

  /** BF.INFO adds up what the sub-filters record. */
  method FilterInfo(tx: Tx, public: Bytes, ghost prefix: ElementPrefix, checked: bool, ghost m: Option<Meta>)
    returns (r: Result<Info, DbError>)
    requires Reads(tx.data, public, prefix, m)
    ensures m.None? ==> r == Err(KeyNotFound)
    ensures m.Some? ==>
      var n := |m.value.filters|;
      var inserted, capacity := WordSum(Total(m.value), checked), WordSum(CapacityUpTo(m.value, n), checked);
      var size := WordSum(SizeUpTo(m.value, n), checked);
      r == if inserted.Some? && capacity.Some? && size.Some?
           then Ok(Info(inserted.value, capacity.value, size.value, n, m.value.expansion)) else Err(Panic)
  {
    hide Reads;
    var fetched := FetchMeta(tx, public, prefix, m);
    match fetched
    case Err(e) => return Err(e);
    case Ok(meta) =>
      var inserted, capacity, size: nat := 0, 0, 0;
      for i := 0 to |meta.filters|
        invariant WordSum(TotalUpTo(meta, i), checked) == Some(inserted)
        invariant WordSum(CapacityUpTo(meta, i), checked) == Some(capacity)
        invariant WordSum(SizeUpTo(meta, i), checked) == Some(size)
      {
        SumsGrow(meta, i + 1, |meta.filters|, checked);
        var a := AddWord(inserted, meta.filters[i].inserted, checked, TotalUpTo(meta, i));
        var c := AddWord(capacity, meta.filters[i].capacity, checked, CapacityUpTo(meta, i));
        var s := AddWord(size, meta.filters[i].numBits, checked, SizeUpTo(meta, i));
        hide WordSum;
        match (a, c, s) {
          case (Some(x), Some(y), Some(z)) => inserted, capacity, size := x, y, z;
          case _ => return Err(Panic);
        }
      }
      return Ok(Info(inserted, capacity, size, |meta.filters|, meta.expansion));
  }

  /** A sum that does not fit stays one. */
  lemma {:induction false} SumsGrow(m: Meta, i: nat, n: nat, checked: bool)
    requires i <= n <= |m.filters|
    ensures WordSum(TotalUpTo(m, i), checked) == None ==> WordSum(TotalUpTo(m, n), checked) == None
    ensures WordSum(CapacityUpTo(m, i), checked) == None ==> WordSum(CapacityUpTo(m, n), checked) == None
    ensures WordSum(SizeUpTo(m, i), checked) == None ==> WordSum(SizeUpTo(m, n), checked) == None
    decreases n
  {
    if i < n { SumsGrow(m, i, n - 1, checked); }
  }

  // ---- A run that loses an add -------------------------------------------

  /** Some bit of `x` is none of `a`. */
  ghost predicate Apart(f: SubFilter, a: Bytes, x: Bytes, maths: Maths) {
    Hashable(f) && exists j :: 0 <= j < f.numHashes && Positions(x, f, maths)[j] !in Positions(a, f, maths)
  }

  /** The items differ in every sub-filter that may be made. */
  ghost predicate Separates(a: Bytes, x: Bytes, maths: Maths) {
    forall capacity: nat, rate: nat, id: nat :: Apart(Sized(capacity, rate, id, maths), a, x, maths)
  }

  ghost predicate PowersOfZero(maths: Maths) { forall i: nat :: i > 0 ==> maths.power(0, i) == 0 }

  /** The sub-filters have bits of `a` only. */
  ghost predicate OnlyBits(data: Data, prefix: Bytes, m: Meta, a: Bytes, maths: Maths) {
    forall i, pos: nat :: 0 <= i < |m.filters| && BitSet(data, prefix, i, pos) ==>
      Hashable(m.filters[i]) && pos in Positions(a, m.filters[i], maths)
  }

  ghost predicate AllApart(m: Meta, a: Bytes, x: Bytes, maths: Maths) {
    forall i :: 0 <= i < |m.filters| ==> Apart(m.filters[i], a, x, maths)
  }

  /**
    The filter after `n` adds of `a`: reserved with capacity 1 and an expansion
    that is stored as 0, it has one full sub-filter for each of them.
   */
  ghost predicate Growing(s: Snap, n: nat, prefix: Bytes, a: Bytes, x: Bytes, maths: Maths) {
    && s.meta.Some? && |s.meta.value.filters| == AtLeastOne(n) && GoodMeta(s.meta.value)
    && s.meta.value.expansion == 0 && !s.meta.value.nonScaling
    && Newest(s.meta.value).inserted == (if n == 0 then 0 else 1)
    && Newest(s.meta.value).capacity == (if n <= 1 then 1 else 0)
    && PagesOK(s.data, prefix) && NoPagesFrom(s.data, prefix, n)
    && AllApart(s.meta.value, a, x, maths) && OnlyBits(s.data, prefix, s.meta.value, a, maths)
  }

  lemma NoBits(data: Data, prefix: Bytes, id: nat, pos: nat)
    requires NoPagesFrom(data, prefix, id)
    ensures !BitSet(data, prefix, id, pos)
  {
    ZeroPageBit(pos % 32768);
  }

  lemma StartGrowing(data: Data, data': Data, prefix: Bytes, rate: nat, a: Bytes, x: Bytes, b: Build)
    requires GoodBuild(b) && rate < WORD && Separates(a, x, b.maths) && NoPagesFrom(data, prefix, 0)
      && SamePages(data, data', prefix)
    ensures Growing(Snap(data', Some(MetaOf(Setup(1, rate, 256, false), b.maths))), 0, prefix, a, x, b.maths)
  {
    var setup := Setup(1, rate, 256, false);
    var m := MetaOf(setup, b.maths);
    FreshSize(1, rate, 256, false, b.maths);
    FreshGood(setup, b.maths);
    SameTidyPages(data, data', prefix);
    NoPagesComplete(data', prefix);
    hide PagesOK, InRange, Apart, BitSet, GoodMeta, SamePages;
    assert m.filters[0] == Sized(1 * b.maths.power(256, 0) % WORD, b.maths.rate(rate, 0), 0, b.maths);
    forall pos: nat ensures !BitSet(data', prefix, 0, pos) { NoBits(data', prefix, 0, pos); }
  }

  /** The sub-filter the next add goes to: the first one, or a new one of capacity 0. */
  lemma NextTarget(m: Meta, n: nat, a: Bytes, x: Bytes, b: Build)
    requires GoodMeta(m) && GoodBuild(b) && PowersOfZero(b.maths) && Separates(a, x, b.maths)
      && AllApart(m, a, x, b.maths)
    requires |m.filters| == AtLeastOne(n) && n <= MAX_FILTERS && m.expansion == 0 && !m.nonScaling
    requires Newest(m).inserted == (if n == 0 then 0 else 1) && Newest(m).capacity == (if n <= 1 then 1 else 0)
    ensures var g := Grown(m, b.maths);
      && !GrowthOverflows(m, b.maths) && (NeedsExpansion(m) <==> n > 0)
        && |g.filters| == n + 1 && AllApart(g, a, x, b.maths)
      && Newest(g).inserted == 0 && Newest(g).capacity == (if n == 0 then 1 else 0) && Newest(g).id == n
      && Newest(g).numBits >= 1 && Newest(g).numHashes >= 1
  {
    assert GoodFilter(Newest(m), |m.filters| - 1);
    var last, g := Newest(m), Grown(m, b.maths);
    if n > 0 {
      assert b.maths.power(0, n) == 0 && last.id + 1 == n;
      assert last.capacity * b.maths.power(0, n) == 0;
      var f := Newest(g);
      assert f == Sized(0, b.maths.rate(b.maths.twice(last.errorRate), n), n, b.maths);
      assert Apart(f, a, x, b.maths);
    }
  }

  /** The next add does not panic and finds nothing. */
  lemma NextReplies(s: Snap, n: nat, item: Bytes, prefix: Bytes, a: Bytes, x: Bytes, b: Build)
    requires Growing(s, n, prefix, a, x, b.maths) && GoodBuild(b) && PowersOfZero(b.maths) && Separates(a, x, b.maths)
      && n <= MAX_FILTERS
    ensures var m := s.meta.value;
      !AddPanics(s.data, prefix, m, item, b) && !InFilter(s.data, prefix, Newest(Grown(m, b.maths)), item, b.maths)
  {
    hide PagesOK, NoPagesFrom, Unreadable, InFilter, InRange, Separates, AllApart, OnlyBits, Grown, GrowthOverflows;
    var m := s.meta.value;
    NextTarget(m, n, a, x, b);
    var f := Newest(Grown(m, b.maths));
    CompletePages(s.data, prefix, f, item, b.maths);
    UnusedFilter(s.data, prefix, f, item, b.maths);
  }

  /** One more add of `a` is one more sub-filter. */
  lemma GrowsOn(s: Snap, n: nat, reply: Option<nat>, t: Snap, prefix: Bytes, a: Bytes, x: Bytes, b: Build)
    requires Growing(s, n, prefix, a, x, b.maths) && GoodBuild(b) && PowersOfZero(b.maths) && Separates(a, x, b.maths)
      && n < MAX_FILTERS
    requires Steps(s, Add(a), reply, t, prefix, b)
    ensures reply == Some(1) && Growing(t, n + 1, prefix, a, x, b.maths)
  {
    hide PagesOK, NoPagesFrom, InFilter, InRange, Separates, PagesStay, BitsAdded, AddPanics;
    hide OnlyBits, AllApart, Saturated, Positions;
    var m := s.meta.value;
    NextReplies(s, n, a, prefix, a, x, b);
    NextTarget(m, n, a, x, b);
    GrownGood(m, b.maths);
    var g := Grown(m, b.maths);
    var f := Newest(g);
    TidyPages(s.data, t.data, prefix, n);
    FewerPages(s.data, prefix, n, n + 1);
    CountedApart(g, a, x, b.maths);
    GrownBits(s.data, t.data, prefix, m, n, a, b.maths);
  }

  lemma CountedApart(g: Meta, a: Bytes, x: Bytes, maths: Maths)
    requires g.filters != [] && AllApart(g, a, x, maths)
    ensures AllApart(Counted(g), a, x, maths)
  {
    var c := Counted(g);
    forall i | 0 <= i < |c.filters| ensures Apart(c.filters[i], a, x, maths) {
      assert Apart(g.filters[i], a, x, maths);
      SameShapePositions(g.filters[i], c.filters[i], a, maths);
      SameShapePositions(g.filters[i], c.filters[i], x, maths);
    }
  }

  lemma SameShapePositions(f: SubFilter, g: SubFilter, x: Bytes, maths: Maths)
    requires SameShape(f, g) && Hashable(f)
    ensures Hashable(g) && Positions(x, g, maths) == Positions(x, f, maths)
  {
  }

  lemma GrownBits(data: Data, data': Data, prefix: Bytes, m: Meta, n: nat, a: Bytes, maths: Maths)
    requires m.filters != [] && OnlyBits(data, prefix, m, a, maths) && NoPagesFrom(data, prefix, n)
    requires var g := Grown(m, maths);
      && |g.filters| == n + 1 && Newest(g).id == n && Hashable(Newest(g))
      && BitsAdded(data, data', prefix, n, Positions(a, Newest(g), maths))
    ensures OnlyBits(data', prefix, Counted(Grown(m, maths)), a, maths)
  {
    hide BitSet, Positions, NoPagesFrom;
    var g := Grown(m, maths);
    var c := Counted(g);
    forall i, pos: nat | 0 <= i < |c.filters| && BitSet(data', prefix, i, pos)
      ensures Hashable(c.filters[i]) && pos in Positions(a, c.filters[i], maths)
    {
      if i == n {
        NoBits(data, prefix, n, pos);
        SameShapePositions(g.filters[n], c.filters[n], a, maths);
      } else {
        assert BitSet(data, prefix, i, pos) && c.filters[i] == m.filters[i];
      }
    }
  }

  lemma GrowingIsTidy(s: Snap, n: nat, prefix: Bytes, a: Bytes, x: Bytes, maths: Maths)
    requires Growing(s, n, prefix, a, x, maths)
    ensures Tidy(s, prefix) && (n == MAX_FILTERS ==> CappedAt(s)) && !HeldAt(s, prefix, x, maths)
  {
    hide BitSet, Positions, PagesOK;
    var m := s.meta.value;
    FewerPages(s.data, prefix, n, |m.filters|);
    forall i | 0 <= i < |m.filters| ensures !InFilter(s.data, prefix, m.filters[i], x, maths) {
      assert GoodFilter(m.filters[i], i) && Apart(m.filters[i], a, x, maths);
      var j :| 0 <= j < m.filters[i].numHashes
        && Positions(x, m.filters[i], maths)[j] !in Positions(a, m.filters[i], maths);
      assert !BitSet(s.data, prefix, i, Positions(x, m.filters[i], maths)[j]);
    }
  }

  method StartFilter(tx: Tx, public: Bytes, prefix: ElementPrefix, rate: nat, ghost a: Bytes, ghost x: Bytes, b: Build)
    returns (ghost now: Option<Meta>)
    requires tx.data == map[] && Placed(public, prefix) && GoodBuild(b) && rate < WORD && Separates(a, x, b.maths)
    modifies tx
    ensures Reads(tx.data, public, prefix, now) && Growing(Snap(tx.data, now), 0, prefix.bytes, a, x, b.maths)
  {
    hide Reads, Placed, InRange, Separates, Growing, OnlyValue, MetaOf, SamePages, PageKey;
    var setup := Setup(1, rate, 256, false);
    now := Some(MetaOf(setup, b.maths));
    var r := Reserve(tx, public, prefix, setup, b);
    StartGrowing(map[], tx.data, prefix.bytes, rate, a, x, b);
  }

  method FillFilter(tx: Tx, public: Bytes, prefix: ElementPrefix, a: Bytes, ghost x: Bytes, b: Build,
                    ghost start: Option<Meta>)
    returns (ghost now: Option<Meta>)
    requires Reads(tx.data, public, prefix, start) && Growing(Snap(tx.data, start), 0, prefix.bytes, a, x, b.maths)
    requires Placed(public, prefix) && GoodBuild(b) && PowersOfZero(b.maths) && Separates(a, x, b.maths)
    modifies tx
    ensures Reads(tx.data, public, prefix, now) && Growing(Snap(tx.data, now), MAX_FILTERS, prefix.bytes, a, x, b.maths)
  {
    hide Reads, Placed, InRange, Separates, PowersOfZero, Growing, Steps, OnlyValue;
    now := start;
    for n := 0 to MAX_FILTERS
      invariant Reads(tx.data, public, prefix, now) && Growing(Snap(tx.data, now), n, prefix.bytes, a, x, b.maths)
    {
      ghost var s := Snap(tx.data, now);
      var reply;
      reply, now := Perform(tx, public, prefix, Add(a), b, now);
      GrowsOn(s, n, reply, Snap(tx.data, now), prefix.bytes, a, x, b);
    }
  }

  /**
    A filter reserved with capacity 1 and EXPANSION 256, which is stored as 0:
    after one item has been added 65535 times, the next item is added with the
    reply 1 and then not found.
   */
  method LosesAdd(public: Bytes, prefix: ElementPrefix, rate: nat, a: Bytes, x: Bytes, b: Build)
    returns (added: Option<nat>, found: Option<nat>)
    requires Placed(public, prefix) && GoodBuild(b) && rate < WORD && PowersOfZero(b.maths) && Separates(a, x, b.maths)
    ensures added == Some(1) && found == Some(0)
  {
    var tx := new Tx(map[]);
    ghost var now := StartFilter(tx, public, prefix, rate, a, x, b);
    now := FillFilter(tx, public, prefix, a, x, b, now);
    hide Reads, Placed, InRange, Separates, PowersOfZero, Growing, Steps, OnlyValue, HeldAt, Tidy;
    ghost var s := Snap(tx.data, now);
    GrowingIsTidy(s, MAX_FILTERS, prefix.bytes, a, x, b.maths);
    added, now := Perform(tx, public, prefix, Add(x), b, now);
    LastReplies(s, added, Snap(tx.data, now), prefix.bytes, a, x, b);
    AddLost(s, x, 1, Snap(tx.data, now), prefix.bytes, b);
    StepTidy(s, Add(x), added, Snap(tx.data, now), prefix.bytes, b);
    s := Snap(tx.data, now);
    found, now := Perform(tx, public, prefix, Exists(x), b, now);
    NotFound(s, x, found, Snap(tx.data, now), prefix.bytes, b);
  }

  lemma LastReplies(s: Snap, reply: Option<nat>, t: Snap, prefix: Bytes, a: Bytes, x: Bytes, b: Build)
    requires Growing(s, MAX_FILTERS, prefix, a, x, b.maths) && GoodBuild(b) && PowersOfZero(b.maths)
      && Separates(a, x, b.maths)
    requires Steps(s, Add(x), reply, t, prefix, b)
    ensures reply == Some(1)
  {
    NextReplies(s, MAX_FILTERS, x, prefix, a, x, b);
  }

  lemma NotFound(s: Snap, item: Bytes, reply: Option<nat>, t: Snap, prefix: Bytes, b: Build)
    requires Tidy(s, prefix) && !HeldAt(s, prefix, item, b.maths) && Steps(s, Exists(item), reply, t, prefix, b)
    ensures reply == Some(0)
  {
    if s.meta.Some? { TidyQuery(s, item, prefix, b.maths); }
  }

  /** Two bits and one hash function, whose value is the length of the item. */
  function TwoBits(): Maths {
    Maths((e, i) => if i == 0 then 1 else if e == 0 then 0 else WORD - 1,
          (r, i) => r % WORD, r => r, (c, r) => 2, (c, r) => 1,
          i => 0, i => 0, (item: Bytes, seed) => |item|, r => r == 0)
  }

  /** With these formulas, adding the empty item 65535 times loses the add of an item of one byte. */
  lemma TwoBitsSeparate(y: Byte)
    ensures InRange(TwoBits()) && PowersOfZero(TwoBits()) && Separates([], [y], TwoBits())
  {
    forall capacity: nat, rate: nat, id: nat ensures Apart(Sized(capacity, rate, id, TwoBits()), [], [y], TwoBits()) {
      var f := Sized(capacity, rate, id, TwoBits());
      assert Positions([], f, TwoBits())[0] == 0 && Positions([y], f, TwoBits())[0] == 1;
      assert Positions([y], f, TwoBits())[0] !in Positions([], f, TwoBits());
    }
  }
}
