/** Paths into JSON documents: reading, setting and deleting. */
module JsonPath {
  import opened ByteStrings
  import opened JsonText

  /** One part of a parsed path. A path is a root part followed by others. */
  datatype Part = Root | Key(name: string) | Index(at: int) | Wildcard | Recursive

  datatype PathError =
    PathMissing | WrongType | OutOfRange | NotArray | WildcardOnScalar | NoWildcards | UnexpectedPart | Ambiguous

  /** A possibly negative array index as a position. */
  function Position(at: int, size: nat): Option<nat> {
    var i := if at < 0 then at + size else at;
    if 0 <= i < size then Some(i) else None
  }

  // ---- Reading -----------------------------------------------------------

  function Join<T, E>(a: Result<seq<T>, E>, b: Result<seq<T>, E>): Result<seq<T>, E> {
    match (a, b)
    case (Ok(x), Ok(y)) => Ok(x + y)
    case (Err(e), _) => Err(e)
    case (_, Err(e)) => Err(e)
  }

  predicate IsContainer(v: JValue) { v.Arr? || v.Obj? }

  function ChildCount(v: JValue): nat { if v.Arr? then |v.items| else if v.Obj? then |v.fields| else 0 }

  /** Every match of the parts from `d` on, in document order; one failure fails the whole. */
  function Resolve(v: JValue, parts: seq<Part>, d: nat): Result<seq<JValue>, PathError>
    requires d <= |parts|
    decreases v, |parts| - d
  {
    if d == |parts| then Ok([v])
    else match parts[d]
      case Root => Resolve(v, parts, d + 1)
      case Recursive => Join(Resolve(v, parts, d + 1), ResolveChildren(v, 0, parts, d))
      case Wildcard => if IsContainer(v) then ResolveChildren(v, 0, parts, d + 1) else Err(WildcardOnScalar)
      case Key(k) => if v.Obj? && k in v.fields then Resolve(v.fields[k], parts, d + 1) else Err(PathMissing)
      case Index(at) =>
        if !v.Arr? then Err(NotArray)
        else match Position(at, |v.items|)
          case None => Err(OutOfRange)
          case Some(i) => Resolve(v.items[i], parts, d + 1)
  }

  function ResolveChildren(v: JValue, i: nat, parts: seq<Part>, d: nat): Result<seq<JValue>, PathError>
    requires d <= |parts| && i <= ChildCount(v)
    decreases v, |parts| - d, ChildCount(v) - i
  {
    if i == ChildCount(v) then Ok([])
    else if v.Arr? then Join(Resolve(v.items[i], parts, d), ResolveChildren(v, i + 1, parts, d))
    else
      var keys := SortedKeys(v.fields.Keys);
      assert keys[i] in keys;
      Join(Resolve(v.fields[keys[i]], parts, d), ResolveChildren(v, i + 1, parts, d))
  }

  predicate IsStep(p: Part) { p.Key? || p.Index? }

  predicate AllSteps(p: seq<Part>) { forall i :: 0 <= i < |p| ==> IsStep(p[i]) }

  /** Following keys and indices. */
  function Follow(v: JValue, p: seq<Part>): Option<JValue>
    requires AllSteps(p)
    decreases |p|
  {
    if p == [] then Some(v)
    else match p[0]
      case Key(k) => if v.Obj? && k in v.fields then Follow(v.fields[k], p[1..]) else None
      case Index(at) =>
        if v.Arr? && Position(at, |v.items|).Some? then Follow(v.items[Position(at, |v.items|).value], p[1..]) else None
  }

  /** A path of keys and indices has one match or none, and then fails. */
  lemma {:induction false} ResolveFollows(v: JValue, parts: seq<Part>, d: nat)
    requires d <= |parts| && AllSteps(parts[d..])
    ensures match Follow(v, parts[d..])
      case Some(x) => Resolve(v, parts, d) == Ok([x])
      case None => Resolve(v, parts, d).Err?
    decreases |parts| - d
  {
    if d < |parts| {
      var p := parts[d..];
      assert p[0] == parts[d] && p[1..] == parts[d + 1..];
      match parts[d]
      case Key(k) => if v.Obj? && k in v.fields { ResolveFollows(v.fields[k], parts, d + 1); }
      case Index(at) =>
        if v.Arr? && Position(at, |v.items|).Some? {
          ResolveFollows(v.items[Position(at, |v.items|).value], parts, d + 1);
        }
    }
  }

  /** A child by its number, in document order. */
  function Child(v: JValue, i: nat): JValue
    requires i < ChildCount(v)
  {
    if v.Arr? then v.items[i]
    else
      var keys := SortedKeys(v.fields.Keys);
      assert keys[i] in keys;
      v.fields[keys[i]]
  }

  lemma ChildSmaller(v: JValue, i: nat)
    requires i < ChildCount(v)
    ensures Child(v, i) < v
  {
    if !v.Arr? {
      var keys := SortedKeys(v.fields.Keys);
      assert keys[i] in keys;
    }
  }

  lemma {:induction false} ChildrenOk(v: JValue, i: nat, parts: seq<Part>, d: nat)
    requires d <= |parts| && i <= ChildCount(v)
    ensures ResolveChildren(v, i, parts, d).Ok? <==>
      forall j :: i <= j < ChildCount(v) ==> Resolve(Child(v, j), parts, d).Ok?
    decreases ChildCount(v) - i
  {
    hide Resolve, SortedKeys;
    if i < ChildCount(v) {
      ChildrenOk(v, i + 1, parts, d);
      assert ResolveChildren(v, i, parts, d) ==
        Join(Resolve(Child(v, i), parts, d), ResolveChildren(v, i + 1, parts, d));
    }
  }

  /** The document and everything in it, at any depth, resolves the parts. */
  ghost predicate Everywhere(v: JValue, parts: seq<Part>, d: nat)
    requires d <= |parts|
    decreases v
  {
    Resolve(v, parts, d).Ok? && forall i :: 0 <= i < ChildCount(v) ==>
      (ChildSmaller(v, i); Everywhere(Child(v, i), parts, d))
  }

  /** A recursive descent succeeds exactly when what follows it succeeds everywhere in the document. */
  lemma {:induction false} RecursiveOk(v: JValue, parts: seq<Part>, d: nat)
    requires d < |parts| && parts[d].Recursive?
    ensures Resolve(v, parts, d).Ok? <==> Everywhere(v, parts, d + 1)
    decreases v
  {
    hide ResolveChildren;
    ChildrenOk(v, 0, parts, d);
    assert Resolve(v, parts, d) == Join(Resolve(v, parts, d + 1), ResolveChildren(v, 0, parts, d));
    hide Resolve, Child;
    forall i | 0 <= i < ChildCount(v)
      ensures Resolve(Child(v, i), parts, d).Ok? <==> Everywhere(Child(v, i), parts, d + 1)
    {
      ChildSmaller(v, i);
      RecursiveOk(Child(v, i), parts, d);
    }
  }

  /** A recursive descent followed by a key or an index fails on every document: the leaves never have it. */
  lemma RecursiveStepFails(v: JValue, parts: seq<Part>, d: nat)
    requires d + 1 < |parts| && parts[d].Recursive? && IsStep(parts[d + 1])
    ensures Resolve(v, parts, d).Err?
  {
    RecursiveOk(v, parts, d);
    StepNotEverywhere(v, parts, d + 1);
  }

  lemma {:induction false} StepNotEverywhere(v: JValue, parts: seq<Part>, d: nat)
    requires d < |parts| && IsStep(parts[d])
    ensures !Everywhere(v, parts, d)
    decreases v
  {
    hide Child;
    if Resolve(v, parts, d).Ok? {
      assert ChildCount(v) > 0;
      ChildSmaller(v, 0);
      StepNotEverywhere(Child(v, 0), parts, d);
    }
  }

  /** No leaf of the document is a scalar: it is made of arrays and objects only. */
  ghost predicate NoScalar(v: JValue)
    decreases v
  {
    IsContainer(v) && forall i :: 0 <= i < ChildCount(v) ==> (ChildSmaller(v, i); NoScalar(Child(v, i)))
  }

  /** A recursive descent followed by a last wildcard succeeds exactly on documents without scalars. */
  lemma RecursiveWildcard(v: JValue, parts: seq<Part>, d: nat)
    requires d + 2 == |parts| && parts[d].Recursive? && parts[d + 1].Wildcard?
    ensures Resolve(v, parts, d).Ok? <==> NoScalar(v)
  {
    RecursiveOk(v, parts, d);
    WildcardEverywhere(v, parts, d + 1);
  }

  lemma {:induction false} WildcardEverywhere(v: JValue, parts: seq<Part>, d: nat)
    requires d + 1 == |parts| && parts[d].Wildcard?
    ensures Everywhere(v, parts, d) <==> NoScalar(v)
    decreases v
  {
    hide Child, ResolveChildren;
    if IsContainer(v) {
      ChildrenOk(v, 0, parts, d + 1);
      assert forall i :: 0 <= i < ChildCount(v) ==> Resolve(Child(v, i), parts, d + 1).Ok?;
    }
    forall i | 0 <= i < ChildCount(v) ensures Everywhere(Child(v, i), parts, d) <==> NoScalar(Child(v, i)) {
      ChildSmaller(v, i);
      WildcardEverywhere(Child(v, i), parts, d);
    }
  }

  // ---- The resolver ------------------------------------------------------

  lemma JoinAssoc<T, E>(a: seq<T>, b: seq<T>, r: Result<seq<T>, E>)
    ensures Join(Ok(a), Join(Ok(b), r)) == Join(Ok(a + b), r)
  {
    if r.Ok? {
      assert a + (b + r.value) == a + b + r.value;
    }
  }

  lemma NextChild(v: JValue, i: nat, parts: seq<Part>, d: nat)
    requires d <= |parts| && i < ChildCount(v)
    ensures ResolveChildren(v, i, parts, d) == Join(Resolve(Child(v, i), parts, d), ResolveChildren(v, i + 1, parts, d))
  {
  }

  /** Appends every match of the parts from `d` on to the results, or stops at the first failure. */
  method ResolveInto(v: JValue, parts: seq<Part>, d: nat, results: seq<JValue>)
    returns (r: Result<(), PathError>, out: seq<JValue>)
    requires d <= |parts|
    ensures match Resolve(v, parts, d) case Ok(found) => r.Ok? && out == results + found case Err(e) => r == Err(e)
    decreases v, |parts| - d, 1
  {
    hide SortedKeys;
    if d >= |parts| {
      return Ok(()), results + [v];
    }
    match parts[d] {
      case Root => r, out := ResolveInto(v, parts, d + 1, results);
      case Recursive =>
        if d + 1 >= |parts| {
          out := results + [v];
        } else {
          r, out := ResolveInto(v, parts, d + 1, results);
          if r.Err? {
            return;
          }
        }
        r, out := ResolveEach(v, parts, d, out);
      case Wildcard =>
        if !IsContainer(v) {
          return Err(WildcardOnScalar), results;
        }
        r, out := ResolveEach(v, parts, d + 1, results);
      case Key(k) =>
        if !v.Obj? || k !in v.fields {
          return Err(PathMissing), results;
        }
        r, out := ResolveInto(v.fields[k], parts, d + 1, results);
      case Index(at) =>
        if !v.Arr? {
          return Err(NotArray), results;
        }
        var i := if at < 0 then at + |v.items| else at;
        if i < 0 || i >= |v.items| {
          return Err(OutOfRange), results;
        }
        r, out := ResolveInto(v.items[i], parts, d + 1, results);
    }
  }

  /** The same for every child in document order. */
  method ResolveEach(v: JValue, parts: seq<Part>, d: nat, results: seq<JValue>)
    returns (r: Result<(), PathError>, out: seq<JValue>)
    requires d <= |parts|
    ensures match ResolveChildren(v, 0, parts, d)
      case Ok(found) => r.Ok? && out == results + found
      case Err(e) => r == Err(e)
    decreases v, |parts| - d, 0
  {
    hide Resolve, SortedKeys, Child, ResolveChildren;
    out := results;
    ghost var all := Join(Ok(results), ResolveChildren(v, 0, parts, d));
    for i := 0 to ChildCount(v)
      invariant Join(Ok(out), ResolveChildren(v, i, parts, d)) == all
    {
      NextChild(v, i, parts, d);
      ChildSmaller(v, i);
      ghost var found := Resolve(Child(v, i), parts, d);
      if found.Ok? {
        JoinAssoc(out, found.value, ResolveChildren(v, i + 1, parts, d));
      }
      r, out := ResolveInto(Child(v, i), parts, d, out);
      if r.Err? {
        return;
      }
    }
    NoMoreChildren(v, parts, d);
    r := Ok(());
  }

  /** All the matches, or the failure. */
  method ResolveValue(v: JValue, parts: seq<Part>) returns (r: Result<seq<JValue>, PathError>)
    ensures r == Resolve(v, parts, 0)
  {
    hide Resolve;
    var done, results := ResolveInto(v, parts, 0, []);
    match done
    case Err(e) => return Err(e);
    case Ok(_) =>
      assert forall found: seq<JValue> :: [] + found == found;
      return Ok(results);
  }

  lemma NoMoreChildren(v: JValue, parts: seq<Part>, d: nat)
    requires d <= |parts|
    ensures ResolveChildren(v, ChildCount(v), parts, d) == Ok([])
  {
  }

  function GetAt(root: JValue, parts: seq<Part>): Result<JValue, PathError> {
    if |parts| == 1 then Ok(root)
    else match Resolve(root, parts, 0)
      case Err(e) => Err(e)
      case Ok(results) =>
        if results == [] then Err(PathMissing) else if |results| == 1 then Ok(results[0]) else Ok(Arr(results))
  }

  // ---- Setting -----------------------------------------------------------

  /** What is at a key: an object is created for a missing one. */
  function ChildOrNew(v: JValue, k: string): JValue
    requires v.Obj?
  {
    if k in v.fields then v.fields[k] else Obj(map[])
  }

  /** Sets the value at a path, creating objects for missing keys on the way; those stay even when the rest fails. */
  function SetIn(v: JValue, p: seq<Part>, value: JValue): (JValue, Result<(), PathError>)
    decreases |p|
  {
    if p == [] then (value, Ok(()))
    else if p[0].Key? then
      if !v.Obj? then (v, Err(WrongType))
      else
        var (child, r) := SetIn(ChildOrNew(v, p[0].name), p[1..], value);
        (Obj(v.fields[p[0].name := child]), r)
    else if p[0].Index? then
      if !v.Arr? then (v, Err(NotArray))
      else match Position(p[0].at, |v.items|)
        case None => (v, Err(OutOfRange))
        case Some(i) =>
          var (child, r) := SetIn(v.items[i], p[1..], value);
          (Arr(v.items[i := child]), r)
    else (v, Err(if |p| == 1 then UnexpectedPart else NoWildcards))
  }

  predicate Sets(v: JValue, p: seq<Part>, value: JValue) { SetIn(v, p, value).1.Ok? }

  function After(v: JValue, p: seq<Part>, value: JValue): JValue { SetIn(v, p, value).0 }

  /** After a set, the path reads the value. */
  lemma {:induction false} SetThenGet(v: JValue, p: seq<Part>, value: JValue)
    requires AllSteps(p) && Sets(v, p, value)
    ensures Follow(After(v, p, value), p) == Some(value)
    decreases |p|
  {
    if p != [] {
      match p[0]
      case Key(k) => SetThenGet(ChildOrNew(v, k), p[1..], value);
      case Index(at) => SetThenGet(v.items[Position(at, |v.items|).value], p[1..], value);
    }
  }

  /** Setting what is there changes nothing. */
  lemma {:induction false} SetWhatIsThere(v: JValue, p: seq<Part>)
    requires AllSteps(p) && Follow(v, p).Some?
    ensures SetIn(v, p, Follow(v, p).value) == (v, Ok(()))
    decreases |p|
  {
    if p != [] {
      match p[0]
      case Key(k) => SetWhatIsThere(v.fields[k], p[1..]); assert v.fields[k := v.fields[k]] == v.fields;
      case Index(at) =>
        var i := Position(at, |v.items|).value;
        SetWhatIsThere(v.items[i], p[1..]);
        assert v.items[i := v.items[i]] == v.items;
    }
  }

  /** A second set at the same path overrides the first. */
  lemma {:induction false} SetTwice(v: JValue, p: seq<Part>, x: JValue, y: JValue)
    requires AllSteps(p) && Sets(v, p, x)
    ensures SetIn(After(v, p, x), p, y) == SetIn(v, p, y)
    decreases |p|
  {
    if p != [] {
      match p[0]
      case Key(k) =>
        SetTwice(ChildOrNew(v, k), p[1..], x, y);
        var child, child' := After(ChildOrNew(v, k), p[1..], x), After(ChildOrNew(v, k), p[1..], y);
        assert v.fields[k := child][k := child'] == v.fields[k := child'];
      case Index(at) =>
        var i := Position(at, |v.items|).value;
        SetTwice(v.items[i], p[1..], x, y);
        var child, child' := After(v.items[i], p[1..], x), After(v.items[i], p[1..], y);
        assert v.items[i := child][i := child'] == v.items[i := child'];
    }
  }

  /** The path `q` leaves `p` at another key, or at an index of another position, in the document `v`. */
  predicate Diverges(v: JValue, p: seq<Part>, q: seq<Part>)
    requires AllSteps(p) && AllSteps(q)
    decreases |p|
  {
    && p != [] && q != []
    && match (p[0], q[0])
       case (Key(k), Key(l)) => k != l || (v.Obj? && Diverges(ChildOrNew(v, k), p[1..], q[1..]))
       case (Index(at), Index(bt)) =>
         && v.Arr?
         && (Position(at, |v.items|) != Position(bt, |v.items|)
             || (Position(at, |v.items|).Some? && Diverges(v.items[Position(at, |v.items|).value], p[1..], q[1..])))
       case _ => true
  }

  /** A path that branches off reads as before, or fails as before. */
  lemma {:induction false} SetElsewhere(v: JValue, p: seq<Part>, value: JValue, q: seq<Part>)
    requires AllSteps(p) && AllSteps(q) && Diverges(v, p, q)
    ensures Follow(After(v, p, value), q) == Follow(v, q)
    decreases |p|
  {
    match (p[0], q[0])
    case (Key(k), Key(l)) =>
      if k == l && v.Obj? {
        SetElsewhere(ChildOrNew(v, k), p[1..], value, q[1..]);
        if k !in v.fields { EmptyHasNothing(q[1..]); }
      }
    case (Index(at), Index(bt)) =>
      if Position(at, |v.items|).Some? && Position(at, |v.items|) == Position(bt, |v.items|) {
        SetElsewhere(v.items[Position(at, |v.items|).value], p[1..], value, q[1..]);
      }
    case _ =>
  }

  lemma EmptyHasNothing(q: seq<Part>)
    requires AllSteps(q) && q != []
    ensures Follow(Obj(map[]), q) == None
  {
  }

  // ---- Deleting ----------------------------------------------------------

  /** Removes the member a path ends in, creating objects for missing keys on the way. */
  function DeleteKeyIn(v: JValue, p: seq<Part>): (JValue, Result<(), PathError>)
    requires p != [] && p[|p| - 1].Key?
    decreases |p|
  {
    if |p| == 1 then
      if !v.Obj? then (v, Err(WrongType))
      else if p[0].name !in v.fields then (v, Err(PathMissing))
      else (Obj(v.fields - {p[0].name}), Ok(()))
    else if p[0].Key? then
      if !v.Obj? then (v, Err(WrongType))
      else
        var (child, r) := DeleteKeyIn(ChildOrNew(v, p[0].name), p[1..]);
        (Obj(v.fields[p[0].name := child]), r)
    else if p[0].Index? then
      if !v.Arr? then (v, Err(NotArray))
      else match Position(p[0].at, |v.items|)
        case None => (v, Err(OutOfRange))
        case Some(i) =>
          var (child, r) := DeleteKeyIn(v.items[i], p[1..]);
          (Arr(v.items[i := child]), r)
    else (v, Err(NoWildcards))
  }

  /** Deleting a key succeeds exactly when it is there, and then it is gone. */
  lemma {:induction false} DeleteThenGet(v: JValue, p: seq<Part>)
    requires AllSteps(p) && p != [] && p[|p| - 1].Key?
    ensures DeleteKeyIn(v, p).1.Ok? <==> Follow(v, p).Some?
    ensures Follow(DeleteKeyIn(v, p).0, p) == None
    decreases |p|
  {
    if |p| > 1 {
      match p[0]
      case Key(k) => if v.Obj? { DeleteThenGet(ChildOrNew(v, k), p[1..]); EmptyHasNothing(p[1..]); }
      case Index(at) =>
        if v.Arr? && Position(at, |v.items|).Some? {
          DeleteThenGet(v.items[Position(at, |v.items|).value], p[1..]);
        }
    }
  }

  /** Deleting a key leaves every path that branches off as it was. */
  lemma {:induction false} DeleteElsewhere(v: JValue, p: seq<Part>, q: seq<Part>)
    requires AllSteps(p) && AllSteps(q) && p != [] && p[|p| - 1].Key? && Diverges(v, p, q)
    ensures Follow(DeleteKeyIn(v, p).0, q) == Follow(v, q)
    decreases |p|
  {
    match (p[0], q[0])
    case (Key(k), Key(l)) =>
      if k == l && v.Obj? && |p| > 1 {
        DeleteElsewhere(ChildOrNew(v, k), p[1..], q[1..]);
        if k !in v.fields { EmptyHasNothing(q[1..]); }
      }
    case (Index(at), Index(bt)) =>
      if |p| > 1 && Position(at, |v.items|).Some? && Position(at, |v.items|) == Position(bt, |v.items|) {
        DeleteElsewhere(v.items[Position(at, |v.items|).value], p[1..], q[1..]);
      }
    case _ =>
  }

  /** Deleting a key that a set has added, to an object that was there, gives back the document. */
  lemma {:induction false} DeleteUndoesSet(v: JValue, p: seq<Part>, value: JValue)
    requires AllSteps(p) && p != [] && p[|p| - 1].Key? && Follow(v, p).None? && Follow(v, p[..|p| - 1]).Some?
      && Sets(v, p, value)
    ensures DeleteKeyIn(After(v, p, value), p) == (v, Ok(()))
    decreases |p|
  {
    if |p| == 1 {
      var k := p[0].name;
      assert p[1..] == [] && k !in v.fields;
      assert After(v, p, value) ==
        Obj(v.fields[k := value]) by { assert SetIn(ChildOrNew(v, k), p[1..], value) == (value, Ok(())); }
      assert v.fields[k := value] - {k} == v.fields;
    } else {
      var up := p[..|p| - 1];
      assert up[1..] == p[1..][..|p[1..]| - 1] && up[0] == p[0];
      match p[0]
      case Key(k) =>
        DeleteUndoesSet(v.fields[k], p[1..], value);
        var child := After(v.fields[k], p[1..], value);
        assert v.fields[k := child][k := v.fields[k]] == v.fields;
      case Index(at) =>
        var i := Position(at, |v.items|).value;
        DeleteUndoesSet(v.items[i], p[1..], value);
        var child := After(v.items[i], p[1..], value);
        assert v.items[i := child][i := v.items[i]] == v.items;
    }
  }

  // ---- Walking down ------------------------------------------------------

  /** A container on the way down, with the place the way goes on at. */
  datatype Frame = Member(fields: map<string, JValue>, name: string) | Element(items: seq<JValue>, at: nat)

  predicate ProperFrame(f: Frame) { f.Element? ==> f.at < |f.items| }

  predicate ProperTrail(trail: seq<Frame>) { forall i :: 0 <= i < |trail| ==> ProperFrame(trail[i]) }

  /** The container with `v` put back into its place. */
  function Close(f: Frame, v: JValue): JValue
    requires ProperFrame(f)
  {
    match f case Member(fields, name) => Obj(fields[name := v]) case Element(items, at) => Arr(items[at := v])
  }

  /** The document with what the way led to replaced by `v`. */
  function Rebuild(trail: seq<Frame>, v: JValue): JValue
    requires ProperTrail(trail)
    decreases |trail|
  {
    if trail == [] then v else Close(trail[0], Rebuild(trail[1..], v))
  }

  /** Why the way cannot go on at a part, if so. */
  function Blocked(v: JValue, part: Part): Option<PathError> {
    match part
    case Key(_) => if v.Obj? then None else Some(WrongType)
    case Index(at) =>
      if !v.Arr? then Some(NotArray) else if Position(at, |v.items|).None? then Some(OutOfRange) else None
    case _ => Some(NoWildcards)
  }

  function FrameOf(v: JValue, part: Part): (f: Frame)
    requires Blocked(v, part).None?
    ensures ProperFrame(f)
  {
    if part.Key? then Member(v.fields, part.name) else Element(v.items, Position(part.at, |v.items|).value)
  }

  function Down(v: JValue, part: Part): JValue
    requires Blocked(v, part).None?
  {
    if part.Key? then ChildOrNew(v, part.name) else v.items[Position(part.at, |v.items|).value]
  }

  /** The parts lead from `v` past the containers of the trail to `current`. */
  ghost predicate Leads(v: JValue, p: seq<Part>, trail: seq<Frame>, current: JValue)
    decreases |p|
  {
    && |trail| == |p| && ProperTrail(trail)
    && if p == [] then v == current
       else Blocked(v, p[0]).None? && trail[0] == FrameOf(v, p[0]) && Leads(Down(v, p[0]), p[1..], trail[1..], current)
  }

  lemma {:induction false} LeadsOn(v: JValue, p: seq<Part>, trail: seq<Frame>, current: JValue, part: Part)
    requires Leads(v, p, trail, current) && Blocked(current, part).None?
    ensures Leads(v, p + [part], trail + [FrameOf(current, part)], Down(current, part))
    decreases |p|
  {
    hide Blocked, FrameOf, Down;
    var q, more := p + [part], trail + [FrameOf(current, part)];
    if p == [] {
      assert q[1..] == [] && more[1..] == [];
    } else {
      LeadsOn(Down(v, p[0]), p[1..], trail[1..], current, part);
      assert q[1..] == p[1..] + [part] && more[1..] == trail[1..] + [FrameOf(current, part)];
    }
  }

  lemma SetDown(v: JValue, p: seq<Part>, value: JValue)
    requires p != [] && Blocked(v, p[0]).None?
    ensures var (child, r) := SetIn(Down(v, p[0]), p[1..], value);
      SetIn(v, p, value) == (Close(FrameOf(v, p[0]), child), r)
  {
  }

  lemma DeleteDown(v: JValue, p: seq<Part>)
    requires |p| > 1 && p[|p| - 1].Key? && Blocked(v, p[0]).None?
    ensures var (child, r) := DeleteKeyIn(Down(v, p[0]), p[1..]);
      DeleteKeyIn(v, p) == (Close(FrameOf(v, p[0]), child), r)
  {
  }

  /** Setting along a path is setting where the way led to, and putting everything back. */
  lemma {:induction false} SetThere(v: JValue, p: seq<Part>, q: seq<Part>, trail: seq<Frame>, current: JValue,
                                    value: JValue)
    requires Leads(v, p, trail, current)
    ensures var (there, r) := SetIn(current, q, value); SetIn(v, p + q, value) == (Rebuild(trail, there), r)
    decreases |p|
  {
    if p == [] {
      assert p + q == q;
    } else {
      assert (p + q)[1..] == p[1..] + q;
      SetDown(v, p + q, value);
      hide SetIn, Down, FrameOf, Blocked, Close;
      SetThere(Down(v, p[0]), p[1..], q, trail[1..], current, value);
    }
  }

  /** The same for deleting a key. */
  lemma {:induction false} DeleteThere(v: JValue, p: seq<Part>, q: seq<Part>, trail: seq<Frame>, current: JValue)
    requires Leads(v, p, trail, current) && q != [] && q[|q| - 1].Key?
    ensures var (there, r) := DeleteKeyIn(current, q);
      (p + q)[|p + q| - 1].Key? && DeleteKeyIn(v, p + q) == (Rebuild(trail, there), r)
    decreases |p|
  {
    if p == [] {
      assert p + q == q;
    } else {
      assert (p + q)[1..] == p[1..] + q;
      DeleteDown(v, p + q);
      hide DeleteKeyIn, Down, FrameOf, Blocked, Close;
      DeleteThere(Down(v, p[0]), p[1..], q, trail[1..], current);
    }
  }

  /**
    Walks down to the container the last part names, past the recorded
    containers; a missing key counts as an empty object. On an error the way
    ends at the container that blocks it.
   */
  method EnsureParent(root: JValue, p: seq<Part>) returns (r: Result<(), PathError>, parent: JValue, trail: seq<Frame>)
    requires p != []
    ensures |trail| < |p| && Leads(root, p[..|trail|], trail, parent)
    ensures match r
      case Ok(_) => |trail| == |p| - 1
      case Err(e) => |trail| < |p| - 1 && Blocked(parent, p[|trail|]) == Some(e)
  {
    parent, trail := root, [];
    for j := 0 to |p| - 1
      invariant |trail| == j && Leads(root, p[..j], trail, parent)
    {
      hide Leads;
      assert p[..j + 1] == p[..j] + [p[j]];
      if Blocked(parent, p[j]).None? {
        LeadsOn(root, p[..j], trail, parent, p[j]);
      }
      match p[j]
      case Key(k) =>
        if !parent.Obj? {
          return Err(WrongType), parent, trail;
        }
        trail := trail + [Member(parent.fields, k)];
        parent := if k in parent.fields then parent.fields[k] else Obj(map[]);
      case Index(at) =>
        if !parent.Arr? {
          return Err(NotArray), parent, trail;
        }
        var i := if at < 0 then at + |parent.items| else at;
        if i < 0 || i >= |parent.items| {
          return Err(OutOfRange), parent, trail;
        }
        trail, parent := trail + [Element(parent.items, i)], parent.items[i];
      case _ => return Err(NoWildcards), parent, trail;
    }
    r := Ok(());
  }

  lemma BlockedSet(v: JValue, p: seq<Part>, value: JValue)
    requires |p| > 1 && Blocked(v, p[0]).Some?
    ensures SetIn(v, p, value) == (v, Err(Blocked(v, p[0]).value))
    ensures p[|p| - 1].Key? ==> DeleteKeyIn(v, p) == (v, Err(Blocked(v, p[0]).value))
  {
  }

  /** Walks down and assigns. */
  method Assign(root: JValue, p: seq<Part>, value: JValue) returns (changed: JValue, r: Result<(), PathError>)
    requires p != []
    ensures (changed, r) == SetIn(root, p, value)
  {
    hide SetIn, Leads, Rebuild;
    var way, parent, trail := EnsureParent(root, p);
    ghost var n := |trail|;
    assert p == p[..n] + p[n..];
    SetThere(root, p[..n], p[n..], trail, parent, value);
    LeadsProper(root, p[..n], trail, parent);
    match way {
      case Err(e) =>
        BlockedSet(parent, p[n..], value);
        return Rebuild(trail, parent), Err(e);
      case Ok(_) =>
    }
    var last := p[|p| - 1];
    assert p[n..] == [last];
    SetLast(parent, last, value);
    match last
    case Key(k) =>
      if !parent.Obj? {
        return Rebuild(trail, parent), Err(WrongType);
      }
      return Rebuild(trail, Obj(parent.fields[k := value])), Ok(());
    case Index(at) =>
      if !parent.Arr? {
        return Rebuild(trail, parent), Err(NotArray);
      }
      var i := if at < 0 then at + |parent.items| else at;
      if i < 0 || i >= |parent.items| {
        return Rebuild(trail, parent), Err(OutOfRange);
      }
      return Rebuild(trail, Arr(parent.items[i := value])), Ok(());
    case _ => return Rebuild(trail, parent), Err(UnexpectedPart);
  }

  lemma LeadsProper(v: JValue, p: seq<Part>, trail: seq<Frame>, current: JValue)
    requires Leads(v, p, trail, current)
    ensures ProperTrail(trail)
  {
  }

  lemma SetLast(v: JValue, last: Part, value: JValue)
    ensures SetIn(v, [last], value) == match last
      case Key(k) => if v.Obj? then (Obj(v.fields[k := value]), Ok(())) else (v, Err(WrongType))
      case Index(at) =>
        if !v.Arr? then (v, Err(NotArray))
        else (match Position(at, |v.items|)
              case None => (v, Err(OutOfRange))
              case Some(i) => (Arr(v.items[i := value]), Ok(())))
      case _ => (v, Err(UnexpectedPart))
  {
    assert [last][1..] == [];
  }

  /** Walks down and removes the member. */
  method Remove(root: JValue, p: seq<Part>) returns (changed: JValue, r: Result<(), PathError>)
    requires p != [] && p[|p| - 1].Key?
    ensures (changed, r) == DeleteKeyIn(root, p)
  {
    hide Leads, Rebuild;
    var way, parent, trail := EnsureParent(root, p);
    ghost var n := |trail|;
    assert p == p[..n] + p[n..];
    DeleteThere(root, p[..n], p[n..], trail, parent);
    LeadsProper(root, p[..n], trail, parent);
    match way {
      case Err(e) =>
        BlockedSet(parent, p[n..], Null);
        return Rebuild(trail, parent), Err(e);
      case Ok(_) =>
    }
    var name := p[|p| - 1].name;
    assert p[n..] == [Key(name)];
    if !parent.Obj? {
      return Rebuild(trail, parent), Err(WrongType);
    }
    if name !in parent.fields {
      return Rebuild(trail, parent), Err(PathMissing);
    }
    return Rebuild(trail, Obj(parent.fields - {name})), Ok(());
  }

  // ---- Documents ---------------------------------------------------------

  predicate HasWildcard(parts: seq<Part>) { exists i :: 0 < i < |parts| && (parts[i].Wildcard? || parts[i].Recursive?) }

  /** What setting a whole path does to a document. */
  function SetAt(root: JValue, parts: seq<Part>, value: JValue): (JValue, Result<(), PathError>)
    requires parts != []
  {
    if |parts| == 1 then (value, Ok(())) else if HasWildcard(parts) then (root, Err(NoWildcards))
      else SetIn(root, parts[1..], value)
  }

  function RemoveItem(items: seq<JValue>, i: nat): seq<JValue>
    requires i < |items|
  {
    items[..i] + items[i + 1..]
  }

  /** The array a path names, when it names one and only one. */
  function SingleArray(root: JValue, parts: seq<Part>): Result<seq<JValue>, PathError> {
    match Resolve(root, parts, 0)
    case Err(e) => Err(e)
    case Ok(results) =>
      if |results| != 1 then Err(Ambiguous) else if results[0].Arr? then Ok(results[0].items) else Err(NotArray)
  }

  /** What deleting a whole path does to a document. */
  function DeleteAt(root: JValue, parts: seq<Part>): (JValue, Result<(), PathError>)
    requires parts != []
  {
    if |parts| == 1 then (Null, Ok(()))
    else if HasWildcard(parts) then (root, Err(NoWildcards))
    else
      var last, up := parts[|parts| - 1], parts[..|parts| - 1];
      if last.Key? then DeleteKeyIn(root, parts[1..])
      else if !last.Index? then (root, Err(UnexpectedPart))
      else match SingleArray(root, up)
        case Err(e) => (root, Err(e))
        case Ok(items) =>
          match Position(last.at, |items|)
          case None => (root, Err(OutOfRange))
          case Some(i) => SetAt(root, up, Arr(RemoveItem(items, i)))
  }

  class JsonDocument {
    var root: JValue

    constructor (root: JValue)
      ensures this.root == root
    {
      this.root := root;
    }

    /** The single match of a path, or all of them as an array. */
    method Get(parts: seq<Part>) returns (r: Result<JValue, PathError>)
      requires parts != []
      ensures r == GetAt(root, parts)
      ensures PlainPath(parts) ==> match Follow(root, parts[1..]) case Some(x) => r == Ok(x) case None => r.Err?
    {
      hide Resolve;
      if PlainPath(parts) {
        GetFollows(root, parts);
      }
      if |parts| == 1 {
        return Ok(root);
      }
      var found := ResolveValue(root, parts);
      match found
      case Err(e) => return Err(e);
      case Ok(results) =>
        if results == [] {
          return Err(PathMissing);
        }
        return if |results| == 1 then Ok(results[0]) else Ok(Arr(results));
    }

    method Set(parts: seq<Part>, value: JValue) returns (r: Result<(), PathError>)
      requires parts != []
      modifies this
      ensures (root, r) == SetAt(old(root), parts, value)
    {
      hide SetIn;
      if |parts| == 1 {
        root := value;
        return Ok(());
      }
      for i := 1 to |parts|
        invariant forall j :: 0 < j < i ==> !parts[j].Wildcard? && !parts[j].Recursive?
      {
        if parts[i].Wildcard? || parts[i].Recursive? {
          return Err(NoWildcards);
        }
      }
      root, r := Assign(root, parts[1..], value);
    }

    method Delete(parts: seq<Part>) returns (r: Result<(), PathError>)
      requires parts != []
      modifies this
      ensures (root, r) == DeleteAt(old(root), parts)
    {
      hide SetIn, DeleteKeyIn, Resolve;
      if |parts| == 1 {
        root := Null;
        return Ok(());
      }
      for i := 1 to |parts|
        invariant forall j :: 0 < j < i ==> !parts[j].Wildcard? && !parts[j].Recursive?
      {
        if parts[i].Wildcard? || parts[i].Recursive? {
          return Err(NoWildcards);
        }
      }
      var last, up := parts[|parts| - 1], parts[..|parts| - 1];
      if last.Key? {
        root, r := Remove(root, parts[1..]);
        return;
      }
      if !last.Index? {
        return Err(UnexpectedPart);
      }
      var found := ResolveValue(root, up);
      match found
      case Err(e) => return Err(e);
      case Ok(results) =>
        if |results| != 1 {
          return Err(Ambiguous);
        }
        if !results[0].Arr? {
          return Err(NotArray);
        }
        var items := results[0].items;
        var i := if last.at < 0 then last.at + |items| else last.at;
        if i < 0 || i >= |items| {
          return Err(OutOfRange);
        }
        r := Set(up, Arr(RemoveItem(items, i)));
    }

    /** Replaces the array at a path; wildcards are refused on the way rather than beforehand. */
    method SetArrayResult(parts: seq<Part>, arr: JValue) returns (r: Result<(), PathError>)
      requires parts != []
      modifies this
      ensures (root, r) == if |parts| == 1 then (arr, Ok(())) else SetIn(old(root), parts[1..], arr)
      ensures !HasWildcard(parts) ==> (root, r) == SetAt(old(root), parts, arr)
    {
      if |parts| == 1 {
        root := arr;
        return Ok(());
      }
      root, r := Assign(root, parts[1..], arr);
    }

    /** The first element structurally equal to `value`, found by comparing texts, or -1. */
    method ArrIndex(parts: seq<Part>, value: JValue, num: Printer) returns (r: Result<int, PathError>)
      requires parts != [] && GoodPrinter(num)
      ensures GetAt(root, parts).Err? ==> r.Err?
      ensures GetAt(root, parts).Ok? && !GetAt(root, parts).value.Arr? ==> r == Err(NotArray)
      ensures GetAt(root, parts).Ok? && GetAt(root, parts).value.Arr? ==>
        var items := GetAt(root, parts).value.items;
        && r.Ok? && -1 <= r.value < |items|
        && (r.value == -1 ==> value !in items)
        && (r.value >= 0 ==> items[r.value] == value && value !in items[..r.value])
    {
      var got := Get(parts);
      match got
      case Err(e) => return Err(e);
      case Ok(found) =>
        if !found.Arr? {
          return Err(NotArray);
        }
        var needle := SerializeValue(value, num);
        for i := 0 to |found.items|
          invariant value !in found.items[..i]
        {
          var text := SerializeValue(found.items[i], num);
          SerializeInjective(found.items[i], value, num);
          if text == needle {
            return Ok(i);
          }
          assert found.items[..i + 1] == found.items[..i] + [found.items[i]];
        }
        assert found.items[..|found.items|] == found.items;
        return Ok(-1);
    }
  }

  /** A whole path of keys and indices. */
  predicate PlainPath(parts: seq<Part>) { parts != [] && parts[0].Root? && AllSteps(parts[1..]) }

  lemma PlainPathHasNoWildcard(parts: seq<Part>)
    requires PlainPath(parts)
    ensures !HasWildcard(parts)
  {
    assert forall i :: 0 < i < |parts| ==> parts[i] == parts[1..][i - 1];
  }

  /** Get follows a plain path, or fails. */
  lemma GetFollows(root: JValue, parts: seq<Part>)
    requires PlainPath(parts)
    ensures match Follow(root, parts[1..])
      case Some(x) => GetAt(root, parts) == Ok(x)
      case None => GetAt(root, parts).Err?
  {
    ResolveFollows(root, parts, 1);
  }

  /** Get and Set form a lens on plain paths. */
  lemma DocumentLens(root: JValue, parts: seq<Part>, x: JValue, y: JValue)
    requires PlainPath(parts)
    ensures var (after, r) := SetAt(root, parts, x);
      && (r.Ok? ==> GetAt(after, parts) == Ok(x) && SetAt(after, parts, y) == SetAt(root, parts, y))
      && (GetAt(root, parts) == Ok(x) ==> SetAt(root, parts, x) == (root, Ok(())))
  {
    hide Resolve, SetIn, HasWildcard;
    PlainPathHasNoWildcard(parts);
    var (after, r) := SetAt(root, parts, x);
    var p := parts[1..];
    GetFollows(root, parts);
    GetFollows(after, parts);
    if |parts| > 1 {
      if r.Ok? {
        SetThenGet(root, p, x);
        SetTwice(root, p, x, y);
      }
      if Follow(root, p) == Some(x) { SetWhatIsThere(root, p); }
    }
  }

  /** A path reads the same in two documents, or fails in both. */
  ghost predicate SameRead(a: JValue, b: JValue, path: seq<Part>) {
    (GetAt(a, path).Ok? <==> GetAt(b, path).Ok?) && (GetAt(a, path).Ok? ==> GetAt(a, path) == GetAt(b, path))
  }

  /**
    Whatever Set and Delete do, a plain path that branches off reads as before,
    or fails as before. For Delete of an array element it must branch off before
    the array: inside it the elements behind move up.
   */
  lemma DocumentElsewhere(root: JValue, parts: seq<Part>, x: JValue, other: seq<Part>)
    requires PlainPath(parts) && PlainPath(other)
    ensures Diverges(root, parts[1..], other[1..]) ==> SameRead(SetAt(root, parts, x).0, root, other)
    ensures parts[|parts| - 1].Key? && Diverges(root, parts[1..], other[1..]) ==>
      SameRead(DeleteAt(root, parts).0, root, other)
    ensures parts[|parts| - 1].Index? && Diverges(root, parts[1..|parts| - 1], other[1..]) ==>
      SameRead(DeleteAt(root, parts).0, root, other)
  {
    var p, q := parts[1..], other[1..];
    assert Diverges(root, p, q) ==> |parts| > 1;
    hide Resolve, SetIn, DeleteKeyIn, Diverges, Follow, HasWildcard;
    PlainPathHasNoWildcard(parts);
    GetFollows(root, other);
    if Diverges(root, p, q) {
      GetFollows(SetAt(root, parts, x).0, other);
      SetElsewhere(root, p, x, q);
      if parts[|parts| - 1].Key? {
        GetFollows(DeleteAt(root, parts).0, other);
        DeleteElsewhere(root, p, q);
      }
    }
    if parts[|parts| - 1].Index? && Diverges(root, parts[1..|parts| - 1], q) {
      DeleteIndexElsewhere(root, parts, other);
    }
  }

  lemma DeleteIndexElsewhere(root: JValue, parts: seq<Part>, other: seq<Part>)
    requires PlainPath(parts) && PlainPath(other) && parts[|parts| - 1].Index?
      && Diverges(root, parts[1..|parts| - 1], other[1..])
    ensures SameRead(DeleteAt(root, parts).0, root, other)
  {
    var last, up, q := parts[|parts| - 1], parts[..|parts| - 1], other[1..];
    assert up[1..] == parts[1..|parts| - 1] && |up| > 1;
    hide Resolve, SetIn, DeleteKeyIn, Diverges, Follow, HasWildcard;
    PlainPathHasNoWildcard(parts);
    GetFollows(root, other);
    match SingleArray(root, up)
    case Err(_) =>
    case Ok(items) =>
      match Position(last.at, |items|)
      case None =>
      case Some(i) =>
        PlainPathHasNoWildcard(up);
        SetElsewhere(root, up[1..], Arr(RemoveItem(items, i)), q);
        GetFollows(DeleteAt(root, parts).0, other);
  }

  /** Deleting an array element takes exactly that element out of the array. */
  lemma DeleteIndex(root: JValue, parts: seq<Part>)
    requires PlainPath(parts) && |parts| > 1 && parts[|parts| - 1].Index?
    ensures var (up, at) := (parts[..|parts| - 1], parts[|parts| - 1].at);
      var (after, r) := DeleteAt(root, parts);
      && (r.Ok? <==> GetAt(root, parts).Ok?)
      && (r.Ok? ==>
            && GetAt(root, up).Ok? && GetAt(root, up).value.Arr?
            && var items := GetAt(root, up).value.items;
               && Position(at, |items|).Some?
               && GetAt(after, up) == Ok(Arr(RemoveItem(items, Position(at, |items|).value))))
  {
    PlainPathHasNoWildcard(parts);
    var up := parts[..|parts| - 1];
    assert up[1..] == parts[1..][..|parts| - 2];
    PlainPathHasNoWildcard(up);
    ResolveFollows(root, up, 1);
    GetFollows(root, up);
    GetFollows(root, parts);
    assert parts[1..] == up[1..] + [parts[|parts| - 1]];
    FollowOn(root, up[1..], [parts[|parts| - 1]]);
    if Follow(root, up[1..]).Some? {
      SetWhatIsThere(root, up[1..]);
      var found := Follow(root, up[1..]).value;
      if found.Arr? && Position(parts[|parts| - 1].at, |found.items|).Some? {
        var y := Arr(RemoveItem(found.items, Position(parts[|parts| - 1].at, |found.items|).value));
        if |up| > 1 { SetTwice(root, up[1..], found, y); SetsAlike(root, up[1..], found, y); }
        DocumentLens(root, up, y, y);
      }
    }
  }

  /**
    After an array element is deleted, the element at each position is the one that
    was there, or the next one from the gap on.
   */
  lemma DeleteShifts(root: JValue, parts: seq<Part>, at: nat, rest: seq<Part>)
    requires PlainPath(parts) && |parts| > 1 && parts[|parts| - 1].Index? && AllSteps(rest)
      && DeleteAt(root, parts).1.Ok?
    ensures var (up, after) := (parts[..|parts| - 1], DeleteAt(root, parts).0);
      && GetAt(root, up).Ok? && GetAt(root, up).value.Arr?
      && var n := |GetAt(root, up).value.items|;
         && Position(parts[|parts| - 1].at, n).Some?
         && var gap := Position(parts[|parts| - 1].at, n).value;
            (GetAt(after, up + [Index(at)] + rest).Ok? <==>
              GetAt(root, up + [Index(if at < gap then at else at + 1)] + rest).Ok?)
            && (GetAt(after, up + [Index(at)] + rest).Ok? ==>
                  GetAt(after, up + [Index(at)] + rest) ==
                    GetAt(root, up + [Index(if at < gap then at else at + 1)] + rest))
  {
    hide Resolve, SetIn, DeleteKeyIn, HasWildcard, DeleteAt, GetAt;
    DeleteIndex(root, parts);
    var up, after := parts[..|parts| - 1], DeleteAt(root, parts).0;
    var items := GetAt(root, up).value.items;
    var gap := Position(parts[|parts| - 1].at, |items|).value;
    var from := if at < gap then at else at + 1;
    ReadBelow(root, up, items, from, rest);
    ReadBelow(after, up, RemoveItem(items, gap), at, rest);
  }

  /** Reading below an element of the array a path names. */
  lemma ReadBelow(root: JValue, up: seq<Part>, items: seq<JValue>, at: nat, rest: seq<Part>)
    requires PlainPath(up) && AllSteps(rest) && GetAt(root, up) == Ok(Arr(items))
    ensures var read := GetAt(root, up + [Index(at)] + rest);
      match (if at < |items| then Follow(items[at], rest) else None)
      case Some(x) => read == Ok(x)
      case None => read.Err?
  {
    hide Resolve, GetAt;
    var path, below := up + [Index(at)] + rest, [Index(at)] + rest;
    assert path[1..] == up[1..] + below && path[0] == up[0];
    assert AllSteps(below) && PlainPath(path);
    assert below[1..] == rest;
    GetFollows(root, up);
    GetFollows(root, path);
    FollowOn(root, up[1..], below);
  }

  lemma {:induction false} FollowOn(v: JValue, p: seq<Part>, q: seq<Part>)
    requires AllSteps(p) && AllSteps(q)
    ensures Follow(v, p + q) == match Follow(v, p) case Some(x) => Follow(x, q) case None => None
    decreases |p|
  {
    if p == [] {
      assert p + q == q;
    } else {
      assert (p + q)[1..] == p[1..] + q;
      match p[0]
      case Key(k) => if v.Obj? && k in v.fields { FollowOn(v.fields[k], p[1..], q); }
      case Index(at) =>
        if v.Arr? && Position(at, |v.items|).Some? {
          FollowOn(v.items[Position(at, |v.items|).value], p[1..], q);
        }
    }
  }

  /** Whether a set succeeds does not depend on the value. */
  lemma {:induction false} SetsAlike(v: JValue, p: seq<Part>, x: JValue, y: JValue)
    ensures SetIn(v, p, x).1 == SetIn(v, p, y).1
    decreases |p|
  {
    if p != [] {
      if p[0].Key? && v.Obj? { SetsAlike(ChildOrNew(v, p[0].name), p[1..], x, y); }
      if p[0].Index? && v.Arr? && Position(p[0].at, |v.items|).Some? {
        SetsAlike(v.items[Position(p[0].at, |v.items|).value], p[1..], x, y);
      }
    }
  }
}
