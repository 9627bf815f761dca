/**
  What wildcards and recursive descents mean: they stand for steps into the
  children of a document, in document order.
 */
module JsonPathLaws {
  import opened ByteStrings
  import opened JsonText
  import opened JsonPath

  // ---- Only the rest of a path counts ------------------------------------

  lemma {:induction false} SameRest(v: JValue, p: seq<Part>, d: nat, q: seq<Part>, e: nat)
    requires d <= |p| && e <= |q| && p[d..] == q[e..]
    ensures Resolve(v, p, d) == Resolve(v, q, e)
    decreases v, |p| - d, 1, 0
  {
    if d < |p| {
      assert p[d] == p[d..][0] == q[e..][0] == q[e];
      assert p[d + 1..] == p[d..][1..] && q[e + 1..] == q[e..][1..];
      match p[d]
      case Root => SameRest(v, p, d + 1, q, e + 1);
      case Recursive =>
        SameRest(v, p, d + 1, q, e + 1);
        SameChildren(v, 0, p, d, q, e);
      case Wildcard => if IsContainer(v) { SameChildren(v, 0, p, d + 1, q, e + 1); }
      case Key(k) => if v.Obj? && k in v.fields { SameRest(v.fields[k], p, d + 1, q, e + 1); }
      case Index(at) =>
        if v.Arr? && Position(at, |v.items|).Some? {
          SameRest(v.items[Position(at, |v.items|).value], p, d + 1, q, e + 1);
        }
    }
  }

  lemma {:induction false} SameChildren(v: JValue, i: nat, p: seq<Part>, d: nat, q: seq<Part>, e: nat)
    requires d <= |p| && e <= |q| && p[d..] == q[e..] && i <= ChildCount(v)
    ensures ResolveChildren(v, i, p, d) == ResolveChildren(v, i, q, e)
    decreases v, |p| - d, 0, ChildCount(v) - i
  {
    hide Resolve, ResolveChildren, Child;
    if i < ChildCount(v) {
      NextChild(v, i, p, d);
      NextChild(v, i, q, e);
      ChildSmaller(v, i);
      SameRest(Child(v, i), p, d, q, e);
      SameChildren(v, i + 1, p, d, q, e);
    } else {
      NoMoreChildren(v, p, d);
      NoMoreChildren(v, q, e);
    }
  }

  // ---- Wildcards and recursive descents as steps -------------------------

  /** The steps into the children: the indices of an array, the keys of an object, in order. */
  function StepsInto(v: JValue): (steps: seq<Part>)
    ensures |steps| == ChildCount(v)
  {
    if v.Arr? then seq(|v.items|, i => Index(i))
    else if v.Obj? then
      var keys := SortedKeys(v.fields.Keys);
      seq(|keys|, i requires 0 <= i < |keys| => Key(keys[i]))
    else []
  }

  /** The matches of several paths, one after the other; one failure fails the whole. */
  function Each(v: JValue, paths: seq<seq<Part>>): Result<seq<JValue>, PathError> {
    if paths == [] then Ok([]) else Join(Resolve(v, paths[0], 0), Each(v, paths[1..]))
  }

  /** A step into a child and the rest of a path from there. */
  lemma StepDown(v: JValue, i: nat, rest: seq<Part>)
    requires i < ChildCount(v)
    ensures Resolve(v, [StepsInto(v)[i]] + rest, 0) == Resolve(Child(v, i), rest, 0)
  {
    var p := [StepsInto(v)[i]] + rest;
    assert p[1..] == rest && rest[0..] == rest;
    SameRest(Child(v, i), p, 1, rest, 0);
    if v.Arr? {
      assert Position(i, |v.items|) == Some(i);
    } else {
      var keys := SortedKeys(v.fields.Keys);
      assert keys[i] in keys;
    }
  }

  /** The steps into the children from number `i` on, each followed by the rest. */
  function Behind(v: JValue, i: nat, rest: seq<Part>): seq<seq<Part>>
    requires i <= ChildCount(v)
    decreases ChildCount(v) - i
  {
    if i == ChildCount(v) then [] else [[StepsInto(v)[i]] + rest] + Behind(v, i + 1, rest)
  }

  lemma {:induction false} ChildrenAreSteps(v: JValue, i: nat, rest: seq<Part>)
    requires i <= ChildCount(v)
    ensures ResolveChildren(v, i, rest, 0) == Each(v, Behind(v, i, rest))
    decreases ChildCount(v) - i
  {
    hide Resolve, ResolveChildren, Child, StepsInto;
    if i < ChildCount(v) {
      NextChild(v, i, rest, 0);
      StepDown(v, i, rest);
      ChildrenAreSteps(v, i + 1, rest);
    } else {
      NoMoreChildren(v, rest, 0);
    }
  }

  /** The root stands for nothing. */
  lemma RootMeans(v: JValue, rest: seq<Part>)
    ensures Resolve(v, [Root] + rest, 0) == Resolve(v, rest, 0)
  {
    assert ([Root] + rest)[1..] == rest && rest[0..] == rest;
    SameRest(v, [Root] + rest, 1, rest, 0);
  }

  /** A wildcard stands for each step into a container, in order; a scalar has none. */
  lemma WildcardMeans(v: JValue, rest: seq<Part>)
    ensures Resolve(v, [Wildcard] + rest, 0) ==
      if IsContainer(v) then Each(v, Behind(v, 0, rest)) else Err(WildcardOnScalar)
  {
    var p := [Wildcard] + rest;
    assert p[1..] == rest && rest[0..] == rest;
    if IsContainer(v) {
      SameChildren(v, 0, p, 1, rest, 0);
      ChildrenAreSteps(v, 0, rest);
    }
  }

  /** A recursive descent stands for staying here, and then for each step followed by the descent. */
  lemma RecursiveMeans(v: JValue, rest: seq<Part>)
    ensures Resolve(v, [Recursive] + rest, 0) ==
      Join(Resolve(v, rest, 0), Each(v, Behind(v, 0, [Recursive] + rest)))
  {
    var p := [Recursive] + rest;
    assert p[1..] == rest && rest[0..] == rest;
    SameRest(v, p, 1, rest, 0);
    ChildrenAreSteps(v, 0, p);
    hide ResolveChildren, Each, Behind;
    assert Resolve(v, p, 0) == Join(Resolve(v, p, 1), ResolveChildren(v, 0, p, 0));
  }

  // ---- What they yield ---------------------------------------------------

  /** The elements of an array, the values of an object in key order. */
  function Values(v: JValue): (vs: seq<JValue>)
    ensures |vs| == ChildCount(v)
  {
    if v.Arr? then v.items
    else if v.Obj? then
      var keys := SortedKeys(v.fields.Keys);
      seq(|keys|, i requires 0 <= i < |keys| => assert keys[i] in keys; v.fields[keys[i]])
    else []
  }

  lemma ValuesAreChildren(v: JValue, i: nat)
    requires i < ChildCount(v)
    ensures Values(v)[i] == Child(v, i) && Values(v)[i] < v
  {
    ChildSmaller(v, i);
  }

  /** What the steps find in each of the values, or a failure. */
  function FoundIn(vs: seq<JValue>, steps: seq<Part>): Option<seq<JValue>>
    requires AllSteps(steps)
  {
    if forall i :: 0 <= i < |vs| ==> Follow(vs[i], steps).Some?
    then Some(seq(|vs|, i requires 0 <= i < |vs| => Follow(vs[i], steps).value)) else None
  }

  lemma {:induction false} ChildrenFollow(v: JValue, i: nat, steps: seq<Part>)
    requires i <= ChildCount(v) && AllSteps(steps)
    ensures match FoundIn(Values(v)[i..], steps)
      case Some(found) => ResolveChildren(v, i, steps, 0) == Ok(found)
      case None => ResolveChildren(v, i, steps, 0).Err?
    decreases ChildCount(v) - i
  {
    hide Resolve, ResolveChildren, Child, Follow, Values;
    var vs := Values(v);
    if i < ChildCount(v) {
      NextChild(v, i, steps, 0);
      ValuesAreChildren(v, i);
      assert steps[0..] == steps;
      ResolveFollows(vs[i], steps, 0);
      ChildrenFollow(v, i + 1, steps);
      FoundFirst(vs, i, steps);
    } else {
      NoMoreChildren(v, steps, 0);
      assert FoundIn(vs[i..], steps).value == [];
    }
  }

  lemma FoundFirst(vs: seq<JValue>, i: nat, steps: seq<Part>)
    requires i < |vs| && AllSteps(steps)
    ensures FoundIn(vs[i..], steps) ==
      if Follow(vs[i], steps).Some? && FoundIn(vs[i + 1..], steps).Some?
      then Some([Follow(vs[i], steps).value] + FoundIn(vs[i + 1..], steps).value) else None
  {
    hide Follow;
    var all, rest := vs[i..], vs[i + 1..];
    assert all == [vs[i]] + rest;
    forall j | 0 <= j < |rest| ensures all[j + 1] == rest[j] {}
    if FoundIn(rest, steps).Some? && Follow(vs[i], steps).Some? {
      forall j | 0 <= j < |all| ensures Follow(all[j], steps).Some? {
        if j > 0 { assert all[j] == rest[j - 1]; }
      }
      assert FoundIn(all, steps).value == [Follow(vs[i], steps).value] + FoundIn(rest, steps).value;
    } else if FoundIn(all, steps).Some? {
      assert Follow(all[0], steps).Some?;
      forall j | 0 <= j < |rest| ensures Follow(rest[j], steps).Some? { assert Follow(all[j + 1], steps).Some?; }
    }
  }

  /** A wildcard followed by steps yields what the steps find in each child, in order. */
  lemma WildcardFollows(v: JValue, steps: seq<Part>)
    requires IsContainer(v) && AllSteps(steps)
    ensures match FoundIn(Values(v), steps)
      case Some(found) => Resolve(v, [Root, Wildcard] + steps, 0) == Ok(found)
      case None => Resolve(v, [Root, Wildcard] + steps, 0).Err?
  {
    hide Follow, ResolveChildren, Values;
    RootMeans(v, [Wildcard] + steps);
    assert [Root] + ([Wildcard] + steps) == [Root, Wildcard] + steps;
    WildcardMeans(v, steps);
    ChildrenAreSteps(v, 0, steps);
    assert Values(v)[0..] == Values(v);
    ChildrenFollow(v, 0, steps);
  }

  lemma WildcardValues(v: JValue)
    requires IsContainer(v)
    ensures Resolve(v, [Root, Wildcard], 0) == Ok(Values(v))
  {
    hide Resolve, Values;
    WildcardFollows(v, []);
    assert [Root, Wildcard] + [] == [Root, Wildcard];
    assert FoundIn(Values(v), []).value == Values(v);
  }

  /** Get of a last wildcard on an array: its one element, or all of them as they stand. */
  lemma GetItems(items: seq<JValue>)
    ensures GetAt(Arr(items), [Root, Wildcard]) ==
      if |items| == 0 then Err(PathMissing) else if |items| == 1 then Ok(items[0]) else Ok(Arr(items))
  {
    WildcardValues(Arr(items));
  }

  /** Get of a last wildcard on an object: its one value, or all of them in key order. */
  lemma GetValues(fields: map<string, JValue>)
    ensures var keys := SortedKeys(fields.Keys);
      var r := GetAt(Obj(fields), [Root, Wildcard]);
      if |keys| == 0 then r == Err(PathMissing)
      else if |keys| == 1 then keys[0] in fields && r == Ok(fields[keys[0]])
      else
        && r.Ok? && r.value.Arr? && |r.value.items| == |keys|
        && forall i :: 0 <= i < |keys| ==> keys[i] in fields && r.value.items[i] == fields[keys[i]]
  {
    var keys := SortedKeys(fields.Keys);
    assert forall i :: 0 <= i < |keys| ==> keys[i] in keys;
    WildcardValues(Obj(fields));
  }

  /** A value and then everything inside it, parents before children. */
  function Inside(v: JValue): seq<JValue>
    decreases v, 1, 0
  {
    [v] + InsideFrom(v, 0)
  }

  function InsideFrom(v: JValue, i: nat): seq<JValue>
    requires i <= ChildCount(v)
    decreases v, 0, ChildCount(v) - i
  {
    if i == ChildCount(v) then []
    else ValuesAreChildren(v, i); Inside(Values(v)[i]) + InsideFrom(v, i + 1)
  }

  /** A last recursive descent yields the document and everything inside it. */
  lemma {:induction false} RecursiveYields(v: JValue)
    ensures Resolve(v, [Recursive], 0) == Ok(Inside(v))
    decreases v, 1, 0
  {
    var p := [Recursive];
    DescendFrom(v, 0);
    assert Resolve(v, p, 0) == Join(Resolve(v, p, 1), ResolveChildren(v, 0, p, 0));
  }

  lemma {:induction false} DescendFrom(v: JValue, i: nat)
    requires i <= ChildCount(v)
    ensures ResolveChildren(v, i, [Recursive], 0) == Ok(InsideFrom(v, i))
    decreases v, 0, ChildCount(v) - i
  {
    hide Resolve, ResolveChildren, Child, Values, Inside;
    if i < ChildCount(v) {
      NextChild(v, i, [Recursive], 0);
      ValuesAreChildren(v, i);
      RecursiveYields(Values(v)[i]);
      DescendFrom(v, i + 1);
    } else {
      NoMoreChildren(v, [Recursive], 0);
    }
  }

  /** Get of a last recursive descent: a value without children itself, any other with everything inside it. */
  lemma GetInside(v: JValue)
    ensures GetAt(v, [Root, Recursive]) == if ChildCount(v) == 0 then Ok(v) else Ok(Arr(Inside(v)))
  {
    hide Resolve, Values;
    RootMeans(v, [Recursive]);
    assert [Root] + [Recursive] == [Root, Recursive];
    RecursiveYields(v);
    if ChildCount(v) > 0 {
      ValuesAreChildren(v, 0);
      assert |Inside(Values(v)[0])| > 0;
    }
  }

  // ---- Negative indices --------------------------------------------------

  /** A negative index counts from the end, and fails beyond the first element. */
  lemma NegativeIndex(root: JValue, up: seq<Part>, items: seq<JValue>, at: int)
    requires PlainPath(up) && Follow(root, up[1..]) == Some(Arr(items)) && at < 0
    ensures var r := GetAt(root, up + [Index(at)]);
      if |items| + at >= 0 then r == Ok(items[|items| + at]) else r.Err?
  {
    var path := up + [Index(at)];
    assert path[1..] == up[1..] + [Index(at)];
    assert PlainPath(path);
    GetFollows(root, path);
    FollowOn(root, up[1..], [Index(at)]);
  }
}
