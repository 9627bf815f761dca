/**
  Redis globbing: the pruned recursive matcher of the server, the declarative
  meaning of a pattern, and the dynamic-programming reference matcher. Both
  matchers are proved against the same meaning.
 */
module Pattern {
  import opened ByteStrings

  /** Longest chain of nested `*` expansions tried before giving up. */
  const MAX_STAR_NESTING: nat := 1000

  // ---- What a pattern means ----------------------------------------------

  datatype Member =
    | Plain(b: Byte)               // compared under case folding
    | Exact(b: Byte)               // an escaped member: compared as it is
    | Range(first: Byte, last: Byte)

  datatype Token =
    | Star
    | Any
    | Literal(b: Byte)
    | Class(negate: bool, members: seq<Member>)

  function Fold(nocase: bool, b: Byte): Byte {
    if nocase && 0x41 <= b <= 0x5A then b + 0x20 else b
  }

  /** The members of a class whose text starts at `pat`, and what follows the class. */
  function ClassBody(pat: Bytes): (r: (seq<Member>, Bytes))
    ensures |r.1| <= |pat|
  {
    if pat == [] then ([], [])
    else if pat[0] == BACKSLASH && |pat| >= 2 then
      var (ms, rest) := ClassBody(pat[2..]); ([Exact(pat[1])] + ms, rest)
    else if pat[0] == CLOSE then ([], pat[1..])
    else if |pat| >= 3 && pat[1] == MINUS then
      var (ms, rest) := ClassBody(pat[3..]); ([Range(pat[0], pat[2])] + ms, rest)
    else
      var (ms, rest) := ClassBody(pat[1..]); ([Plain(pat[0])] + ms, rest)
  }

  function SkipStars(pat: Bytes): (r: Bytes)
    ensures |r| <= |pat| && (r != [] ==> r[0] != STAR)
  {
    if pat != [] && pat[0] == STAR then SkipStars(pat[1..]) else pat
  }

  /** The first token of a pattern and the text after it; adjacent stars are one token. */
  function NextToken(pat: Bytes): (r: (Token, Bytes))
    requires pat != []
    ensures |r.1| < |pat|
    ensures r.0.Star? <==> pat[0] == STAR
    ensures r.0.Star? && r.1 != [] ==> r.1[0] != STAR
  {
    if pat[0] == STAR then (Star, SkipStars(pat[1..]))
    else if pat[0] == QUESTION then (Any, pat[1..])
    else if pat[0] == OPEN then
      var negate := |pat| >= 2 && pat[1] == CARET;
      var (ms, rest) := ClassBody(if negate then pat[2..] else pat[1..]);
      (Class(negate, ms), rest)
    else if pat[0] == BACKSLASH && |pat| >= 2 then (Literal(pat[1]), pat[2..])
    else (Literal(pat[0]), pat[1..])
  }

  function Tokenize(pat: Bytes): (ts: seq<Token>)
    decreases |pat|
  {
    if pat == [] then [] else var (t, rest) := NextToken(pat); [t] + Tokenize(rest)
  }

  predicate MemberMatches(m: Member, c: Byte, nocase: bool) {
    match m
    case Plain(b) => Fold(nocase, b) == Fold(nocase, c)
    case Exact(b) => b == c
    case Range(a, b) =>
      var (lo, hi) := if a > b then (b, a) else (a, b);
      Fold(nocase, lo) <= Fold(nocase, c) <= Fold(nocase, hi)
  }

  predicate AnyMember(ms: seq<Member>, c: Byte, nocase: bool) {
    ms != [] && (MemberMatches(ms[0], c, nocase) || AnyMember(ms[1..], c, nocase))
  }

  predicate TokenMatches(t: Token, c: Byte, nocase: bool)
    requires !t.Star?
  {
    match t
    case Any => true
    case Literal(b) => Fold(nocase, b) == Fold(nocase, c)
    case Class(negate, members) => AnyMember(members, c, nocase) != negate
  }

  /** The meaning of a token sequence: a star stands for any run of bytes, any other token for one. */
  ghost predicate Matches(ts: seq<Token>, s: Bytes, nocase: bool)
    decreases |ts|
  {
    if ts == [] then s == []
    else if ts[0].Star? then exists k :: 0 <= k <= |s| && Matches(ts[1..], s[k..], nocase)
    else s != [] && TokenMatches(ts[0], s[0], nocase) && Matches(ts[1..], s[1..], nocase)
  }

  /** How many stars are followed by another token: the recursion depth a match needs. */
  function NestedStars(ts: seq<Token>): nat {
    if |ts| <= 1 then 0 else (if ts[0].Star? then 1 else 0) + NestedStars(ts[1..])
  }

  /** What the server promises: the empty string is matched by the empty pattern only, and a
      pattern that would nest stars too deep (`depth` levels being spent) matches nothing. */
  ghost predicate Selected(depth: nat, pat: Bytes, s: Bytes, nocase: bool) {
    && depth + NestedStars(Tokenize(pat)) <= MAX_STAR_NESTING
    && if s == [] then pat == [] else Matches(Tokenize(pat), s, nocase)
  }

  /** No suffix of `s`, `s` itself included, is matched. */
  ghost predicate Doomed(ts: seq<Token>, s: Bytes, nocase: bool) {
    forall q :: 0 <= q <= |s| ==> !Matches(ts, s[q..], nocase)
  }

  // ---- The server's matcher ----------------------------------------------

  lemma TokenizeStep(pat: Bytes)
    requires pat != []
    ensures var (t, rest) := NextToken(pat);
      && Tokenize(pat) == [t] + Tokenize(rest) && Tokenize(pat)[1..] == Tokenize(rest)
      && (t.Star? ==> rest == SkipStars(pat) && (rest != [] ==> !Tokenize(rest)[0].Star?))
  {
  }

  lemma ClassBodyStep(pat: Bytes, c: Byte, nocase: bool)
    requires pat != [] && pat[0] != CLOSE
    ensures
      var (m, rest) :=
        if pat[0] == BACKSLASH && |pat| >= 2 then (Exact(pat[1]), pat[2..])
        else if |pat| >= 3 && pat[1] == MINUS then (Range(pat[0], pat[2]), pat[3..])
        else (Plain(pat[0]), pat[1..]);
      && ClassBody(pat).1 == ClassBody(rest).1
      && (AnyMember(ClassBody(pat).0, c, nocase) <==>
        MemberMatches(m, c, nocase) || AnyMember(ClassBody(rest).0, c, nocase))
  {
    var ms := ClassBody(pat).0;
    assert ms[1..] == if pat[0] == BACKSLASH && |pat| >= 2 then ClassBody(pat[2..]).0
      else if |pat| >= 3 && pat[1] == MINUS then ClassBody(pat[3..]).0 else ClassBody(pat[1..]).0;
  }

  /** Reads one class against the byte `c`; `pat0` starts after the opening bracket and the caret. */
  method MatchClass(pat0: Bytes, c: Byte, nocase: bool) returns (matched: bool, pat: Bytes)
    ensures matched == AnyMember(ClassBody(pat0).0, c, nocase)
    ensures pat == ClassBody(pat0).1
  {
    matched, pat := false, pat0;
    while true
      invariant ClassBody(pat).1 == ClassBody(pat0).1
      invariant (matched || AnyMember(ClassBody(pat).0, c, nocase)) == AnyMember(ClassBody(pat0).0, c, nocase)
      decreases |pat|
    {
      if pat == [] {
        return;
      }
      if pat[0] == CLOSE {
        pat := pat[1..];
        return;
      }
      ClassBodyStep(pat, c, nocase);
      if pat[0] == BACKSLASH && |pat| >= 2 {
        matched := matched || pat[1] == c;
        pat := pat[2..];
      } else if |pat| >= 3 && pat[1] == MINUS {
        var start, end := pat[0], pat[2];
        if start > end { start, end := end, start; }
        var f := Fold(nocase, c);
        matched := matched || (f >= Fold(nocase, start) && f <= Fold(nocase, end));
        pat := pat[3..];
      } else {
        matched := matched || Fold(nocase, pat[0]) == Fold(nocase, c);
        pat := pat[1..];
      }
    }
  }

  /** Compares one byte with the first token, which is not a star, and moves past the token. */
  method MatchOne(pat0: Bytes, c: Byte, nocase: bool) returns (ok: bool, pat: Bytes)
    requires pat0 != [] && pat0[0] != STAR
    ensures ok == TokenMatches(NextToken(pat0).0, c, nocase)
    ensures pat == NextToken(pat0).1
  {
    pat := pat0;
    if pat[0] == QUESTION {
      return true, pat[1..];
    } else if pat[0] == OPEN {
      pat := pat[1..];
      var negate := pat != [] && pat[0] == CARET;
      if negate { pat := pat[1..]; }
      var hit;
      hit, pat := MatchClass(pat, c, nocase);
      return hit != negate, pat;
    } else {
      if pat[0] == BACKSLASH && |pat| >= 2 { pat := pat[1..]; }
      return Fold(nocase, pat[0]) == Fold(nocase, c), pat[1..];
    }
  }

  /** Every suffix of `str` that `ts0` matches is matched by first spending `p` bytes to get to `ts`. */
  ghost predicate Reaches(ts0: seq<Token>, str: Bytes, ts: seq<Token>, p: nat, nocase: bool) {
    forall q :: 0 <= q <= |str| && Matches(ts0, str[q..], nocase) ==>
      q + p <= |str| && Matches(ts, str[q + p..], nocase)
  }

  /** One token other than a star spends one byte, on every suffix alike. */
  lemma SpendByte(ts0: seq<Token>, str: Bytes, ts: seq<Token>, p: nat, nocase: bool)
    requires ts != [] && !ts[0].Star? && Reaches(ts0, str, ts, p, nocase)
    ensures Reaches(ts0, str, ts[1..], p + 1, nocase)
  {
    forall q | 0 <= q <= |str| && Matches(ts0, str[q..], nocase)
      ensures q + p + 1 <= |str| && Matches(ts[1..], str[q + (p + 1)..], nocase)
    {
      assert Matches(ts, str[q + p..], nocase);
      assert str[q + p..][1..] == str[q + (p + 1)..];
    }
  }

  /** The pruning argument: a star whose rest matches nowhere ahead dooms every suffix of the string. */
  lemma StarDooms(ts0: seq<Token>, str: Bytes, ts: seq<Token>, p: nat, nocase: bool)
    requires p <= |str| && ts != [] && ts[0].Star? && Reaches(ts0, str, ts, p, nocase)
    requires Doomed(ts[1..], str[p..], nocase)
    ensures Doomed(ts0, str, nocase)
  {
    forall q | 0 <= q <= |str| ensures !Matches(ts0, str[q..], nocase) {
      if q + p <= |str| {
        var tail := str[q + p..];
        forall k | 0 <= k <= |tail| ensures tail[k..] == str[p..][q + k..] {}
        assert !Matches(ts, tail, nocase);
      }
    }
  }

  lemma NonStarNeedsByte(ts: seq<Token>, nocase: bool)
    requires ts != [] && !ts[0].Star?
    ensures !Matches(ts, [], nocase)
  {
  }

  lemma StarMatchesFrom(ts: seq<Token>, s: Bytes, k: nat, nocase: bool)
    requires ts != [] && ts[0].Star? && k <= |s| && Matches(ts[1..], s[k..], nocase)
    ensures Matches(ts, s, nocase)
  {
  }

  /** At the end of the string only stars may be left. */
  lemma OnlyStarsLeft(pat: Bytes, nocase: bool)
    ensures SkipStars(pat) == [] <==> Matches(Tokenize(pat), [], nocase)
  {
    if pat != [] {
      TokenizeStep(pat);
      if pat[0] == STAR {
        var e: Bytes := [];
        assert e[0..] == e;
        if SkipStars(pat) != [] { NonStarNeedsByte(Tokenize(SkipStars(pat)), nocase); }
      }
    }
  }

  /**
    The recursive matcher. `skip` is the flag the source shares between all
    activations through a mutable reference; it is always clear on entry.
    Setting it claims that no suffix of the string can be matched either, which
    is what lets an enclosing star give up. `calls` counts activations.
   */
  method MatchAt(pattern: Bytes, str: Bytes, nocase: bool, skip: bool, nesting: nat)
    returns (matched: bool, skip': bool, ghost calls: nat)
    requires !skip
    ensures matched <==> Selected(nesting, pattern, str, nocase)
    ensures skip' && nesting + NestedStars(Tokenize(pattern)) <= MAX_STAR_NESTING ==>
      Doomed(Tokenize(pattern), str, nocase)
    ensures !(matched && skip')
    ensures 1 <= calls <= |str| + 1
    ensures str != [] && (pattern == [] || pattern[0] != STAR) ==> calls <= |str|
    ensures !matched && !skip' ==> calls == 1
    decreases |pattern|
  {
    skip', calls := skip, 1;
    if nesting > MAX_STAR_NESTING {
      return false, skip', calls;
    }
    var pat, s := pattern, str;
    ghost var ts0, p := Tokenize(pattern), 0;
    assert str[0..] == str;
    while pat != [] && s != []
      invariant p <= |str| && s == str[p..] && |pat| <= |pattern|
      invariant p == 0 ==> pat == pattern
      invariant NestedStars(Tokenize(pat)) == NestedStars(ts0)
      invariant Matches(Tokenize(pat), s, nocase) ==> Matches(ts0, str, nocase)
      invariant Reaches(ts0, str, Tokenize(pat), p, nocase)
      invariant s == [] ==> str == []
      decreases |pat|
    {
      ghost var pat0, ts, t := pat, Tokenize(pat), NextToken(pat).0;
      TokenizeStep(pat);
      if pat[0] == STAR {
        while |pat| > 1 && pat[1] == STAR
          invariant pat != [] && pat[0] == STAR && SkipStars(pat) == SkipStars(pat0)
          invariant |pat| <= |pat0|
        {
          pat := pat[1..];
        }
        if |pat| == 1 {
          StarMatchesFrom(ts, s, |s|, nocase);
          return true, skip', calls;
        }
        matched, skip', calls := ExpandStar(ts0, str, ts, pat, s, nocase, nesting, p);
        return;
      }
      SpendByte(ts0, str, ts, p, nocase);
      assert Matches(ts, s, nocase) <==> TokenMatches(t, s[0], nocase) && Matches(ts[1..], s[1..], nocase);
      var ok;
      ok, pat := MatchOne(pat, s[0], nocase);
      if !ok {
        return false, skip', calls;
      }
      s := s[1..];
      p := p + 1;
      if s == [] {
        OnlyStarsLeft(pat, nocase);
        ghost var pat1 := pat;
        while pat != [] && pat[0] == STAR
          invariant SkipStars(pat) == SkipStars(pat1)
        {
          pat := pat[1..];
        }
        return pat == [], skip', calls;
      }
    }
    matched := pat == [] && s == [];
  }

  /** The expansion of one star: try the rest at every position until it matches or the flag is set. */
  method ExpandStar(ghost ts0: seq<Token>, ghost str: Bytes, ghost ts: seq<Token>,
                    pat: Bytes, s0: Bytes, nocase: bool, nesting: nat, ghost p: nat)
    returns (matched: bool, skip': bool, ghost calls: nat)
    requires p < |str| && s0 == str[p..] && 1 < |pat|
    requires ts != [] && ts[0].Star? && ts[1..] == Tokenize(pat[1..]) && !ts[1].Star? && pat[1] != STAR
    requires NestedStars(ts) == NestedStars(ts0)
    requires Matches(ts, s0, nocase) ==> Matches(ts0, str, nocase)
    requires Reaches(ts0, str, ts, p, nocase)
    ensures matched <==> nesting + NestedStars(ts0) <= MAX_STAR_NESTING && Matches(ts0, str, nocase)
    ensures skip' && nesting + NestedStars(ts0) <= MAX_STAR_NESTING ==> Doomed(ts0, str, nocase)
    ensures matched != skip'
    ensures 1 <= calls <= |s0| + 1
    decreases |pat|, 0
  {
    var s := s0;
    skip', calls := false, 1;
    ghost var rest, fits := ts[1..], nesting + NestedStars(ts0) <= MAX_STAR_NESTING;
    ghost var k := 0;
    assert str[0..] == str;
    while s != []
      invariant k <= |s0| && s == s0[k..] && !skip' && calls == 1 + k
      invariant fits ==> forall j :: 0 <= j < k ==> !Matches(rest, s0[j..], nocase)
      decreases |s|
    {
      ghost var n;
      matched, skip', n := MatchAt(pat[1..], s, nocase, skip', nesting + 1);
      calls := calls + n;
      if matched {
        StarMatchesFrom(ts, s0, k, nocase);
        return;
      }
      if skip' {
        if fits {
          forall j | 0 <= j <= |s0| ensures !Matches(rest, s0[j..], nocase) {
            if j >= k { assert s[j - k..] == s0[j..]; }
          }
          StarDooms(ts0, str, ts, p, nocase);
        }
        return;
      }
      s, k := s[1..], k + 1;
    }
    if fits {
      NonStarNeedsByte(rest, nocase);
      assert s0[|s0|..] == [];
      StarDooms(ts0, str, ts, p, nocase);
    }
    return false, true, calls;
  }

  /** A whole match: exact for every pattern, string and case flag, in at most |str| + 1 activations. */
  method GlobMatch(pattern: Bytes, str: Bytes, nocase: bool) returns (matched: bool, ghost calls: nat)
    ensures matched <==> Selected(0, pattern, str, nocase)
    ensures calls <= |str| + 1
  {
    var skip;
    matched, skip, calls := MatchAt(pattern, str, nocase, false, 0);
  }

  // ---- Compiled patterns -------------------------------------------------

  datatype GlobPattern = GlobPattern(pattern: Bytes, nocase: bool, selectAll: bool)

  /** The pub/sub flavour: a lone star does not select the empty name. */
  function New(pattern: Bytes): GlobPattern {
    GlobPattern(pattern, false, false)
  }

  /** The flavour of KEYS and the scanning commands: a lone star selects every name. */
  function Keyspace(pattern: Bytes): GlobPattern {
    GlobPattern(pattern, false, pattern == [STAR])
  }

  ghost predicate Selects(g: GlobPattern, name: Bytes) {
    g.selectAll || Selected(0, g.pattern, name, g.nocase)
  }

  method IsMatch(g: GlobPattern, name: Bytes) returns (matched: bool)
    ensures matched <==> Selects(g, name)
  {
    if g.selectAll {
      return true;
    }
    ghost var calls;
    matched, calls := GlobMatch(g.pattern, name, g.nocase);
  }

  /** The two flavours differ on one pattern and one name only: a lone star and the empty name. */
  lemma FlavoursDiffer(pattern: Bytes, name: Bytes)
    ensures (Selects(New(pattern), name) <==> Selects(Keyspace(pattern), name)) <==> !(pattern == [STAR] && name == [])
  {
    if pattern == [STAR] {
      TokenizeStep(pattern);
      assert Tokenize(pattern) == [Star];
      StarMatchesFrom([Star], name, |name|, false);
    }
  }

  // ---- The reference matcher ---------------------------------------------

  /** The tokens still to come once `tokens` have been read: a star merges with a star just before it. */
  function Pending(tokens: seq<Token>, rest: Bytes): seq<Token> {
    Tokenize(if EndsInStar(tokens) then SkipStars(rest) else rest)
  }

  predicate EndsInStar(tokens: seq<Token>) {
    tokens != [] && tokens[|tokens| - 1].Star?
  }

  lemma ReadToken(tokens: seq<Token>, rest: Bytes)
    requires rest != []
    ensures rest[0] != STAR ==>
      var tokens' := tokens + [NextToken(rest).0];
      tokens + Pending(tokens, rest) == tokens' + Pending(tokens', NextToken(rest).1)
    ensures rest[0] == STAR ==>
      var tokens' := if EndsInStar(tokens) then tokens else tokens + [Star];
      tokens + Pending(tokens, rest) == tokens' + Pending(tokens', rest[1..])
  {
    TokenizeStep(rest);
  }

  /** Splits a pattern into tokens by index. */
  method TokenizeByIndex(pat: Bytes) returns (tokens: seq<Token>)
    ensures tokens == Tokenize(pat)
  {
    tokens := [];
    var i := 0;
    assert pat[0..] == pat;
    while i < |pat|
      invariant 0 <= i <= |pat|
      invariant tokens + Pending(tokens, pat[i..]) == Tokenize(pat)
    {
      ReadToken(tokens, pat[i..]);
      if pat[i] == STAR {
        assert pat[i..][1..] == pat[i + 1..];
        if !EndsInStar(tokens) {
          tokens := tokens + [Star];
        }
        i := i + 1;
      } else {
        var t;
        t, i := TokenByIndex(pat, i);
        tokens := tokens + [t];
      }
    }
    assert pat[i..] == [];
  }

  method TokenByIndex(pat: Bytes, i0: nat) returns (t: Token, i: nat)
    requires i0 < |pat| && pat[i0] != STAR
    ensures i0 < i <= |pat| && NextToken(pat[i0..]) == (t, pat[i..])
  {
    i := i0;
    ghost var rest := pat[i..];
    if pat[i] == QUESTION {
      t, i := Any, i + 1;
    } else if pat[i] == OPEN {
      i := i + 1;
      var negate := i < |pat| && pat[i] == CARET;
      if negate { i := i + 1; }
      assert rest[1..] == pat[i0 + 1..] && (negate ==> rest[2..] == pat[i0 + 2..]);
      var members;
      members, i := MembersByIndex(pat, i);
      t := Class(negate, members);
    } else if pat[i] == BACKSLASH && i + 1 < |pat| {
      assert rest[2..] == pat[i + 2..];
      t, i := Literal(pat[i + 1]), i + 2;
    } else {
      t, i := Literal(pat[i]), i + 1;
    }
  }

  method MembersByIndex(pat: Bytes, i0: nat) returns (members: seq<Member>, i: nat)
    requires i0 <= |pat|
    ensures i0 <= i <= |pat| && members == ClassBody(pat[i0..]).0 && pat[i..] == ClassBody(pat[i0..]).1
  {
    members, i := [], i0;
    while i < |pat|
      invariant i0 <= i <= |pat|
      invariant ClassBody(pat[i0..]).0 == members + ClassBody(pat[i..]).0
      invariant ClassBody(pat[i0..]).1 == ClassBody(pat[i..]).1
    {
      hide ClassBody;
      ghost var from, before := i, members;
      var next;
      next, i := MemberByIndex(pat, i);
      if next.None? {
        assert members + [] == members;
        return;
      }
      members := members + [next.value];
      assert before + ([next.value] + ClassBody(pat[i..]).0) == members + ClassBody(pat[i..]).0;
    }
    assert pat[i..] == [] && ClassBody([]) == ([], []) && members + [] == members;
  }

  /** One member of a class, or none at its end, and where the next one begins. */
  method MemberByIndex(pat: Bytes, i: nat) returns (m: Option<Member>, j: nat)
    requires i < |pat|
    ensures i < j <= |pat|
    ensures if m.None? then ClassBody(pat[i..]) == ([], pat[j..])
            else ClassBody(pat[i..]) == ([m.value] + ClassBody(pat[j..]).0, ClassBody(pat[j..]).1)
  {
    ghost var rest := pat[i..];
    if pat[i] == BACKSLASH && i + 1 < |pat| {
      assert rest[2..] == pat[i + 2..];
      return Some(Exact(pat[i + 1])), i + 2;
    }
    if pat[i] == CLOSE {
      assert rest[1..] == pat[i + 1..];
      return None, i + 1;
    }
    if i + 2 < |pat| && pat[i + 1] == MINUS {
      assert rest[3..] == pat[i + 3..];
      return Some(Range(pat[i], pat[i + 2])), i + 3;
    }
    assert rest[1..] == pat[i + 1..];
    return Some(Plain(pat[i])), i + 1;
  }

  /** Matching a concatenation splits the string in two. */
  lemma {:induction false} MatchesSplit(a: seq<Token>, b: seq<Token>, s: Bytes, nocase: bool)
    ensures Matches(a + b, s, nocase) <==>
      exists k :: 0 <= k <= |s| && Matches(a, s[..k], nocase) && Matches(b, s[k..], nocase)
    decreases |a|
  {
    if a == [] {
      assert a + b == b && s[..0] == [] && s[0..] == s;
    } else {
      assert (a + b)[1..] == a[1..] + b;
      if a[0].Star? {
        SplitAfterStar(a, b, s, nocase);
      } else if s != [] {
        MatchesSplit(a[1..], b, s[1..], nocase);
        forall k | 1 <= k <= |s| ensures s[..k][1..] == s[1..][..k - 1] && s[k..] == s[1..][k - 1..] {}
        if Matches(a + b, s, nocase) {
          var k :| 0 <= k <= |s[1..]| && Matches(a[1..], s[1..][..k], nocase) && Matches(b, s[1..][k..], nocase);
          assert Matches(a, s[..k + 1], nocase) && Matches(b, s[k + 1..], nocase);
        }
      }
    }
  }

  lemma {:induction false} SplitAfterStar(a: seq<Token>, b: seq<Token>, s: Bytes, nocase: bool)
    requires a != [] && a[0].Star?
    ensures Matches(a + b, s, nocase) <==>
      exists k :: 0 <= k <= |s| && Matches(a, s[..k], nocase) && Matches(b, s[k..], nocase)
    decreases |a|, 0
  {
    assert (a + b)[1..] == a[1..] + b;
    if Matches(a + b, s, nocase) {
      var j :| 0 <= j <= |s| && Matches(a[1..] + b, s[j..], nocase);
      MatchesSplit(a[1..], b, s[j..], nocase);
      var k :| 0 <= k <= |s[j..]| && Matches(a[1..], s[j..][..k], nocase) && Matches(b, s[j..][k..], nocase);
      assert s[j..][..k] == s[..j + k][j..] && s[j..][k..] == s[j + k..];
      StarMatchesFrom(a, s[..j + k], j, nocase);
    }
    if k :| 0 <= k <= |s| && Matches(a, s[..k], nocase) && Matches(b, s[k..], nocase) {
      var j :| 0 <= j <= k && Matches(a[1..], s[..k][j..], nocase);
      MatchesSplit(a[1..], b, s[j..], nocase);
      assert s[j..][..k - j] == s[..k][j..] && s[j..][k - j..] == s[k..];
      StarMatchesFrom(a + b, s, j, nocase);
    }
  }

  /** One row of the table: how a last token extends the prefixes matched so far. */
  lemma LastToken(ts: seq<Token>, t: Token, s: Bytes, nocase: bool)
    ensures Matches(ts + [t], s, nocase) <==>
      if t.Star? then exists k :: 0 <= k <= |s| && Matches(ts, s[..k], nocase)
      else s != [] && Matches(ts, s[..|s| - 1], nocase) && TokenMatches(t, s[|s| - 1], nocase)
  {
    MatchesSplit(ts, [t], s, nocase);
    forall k | 0 <= k <= |s|
      ensures Matches([t], s[k..], nocase) <==> t.Star? || (k == |s| - 1 && TokenMatches(t, s[k], nocase))
    {
      if t.Star? {
        StarMatchesFrom([t], s[k..], |s| - k, nocase);
      }
    }
  }

  /** The reference matcher, row by row over the tokens: `dp[j]` says the tokens so far match `s[..j]`. */
  method Oracle(pat: Bytes, s: Bytes, nocase: bool) returns (matched: bool)
    ensures matched <==> if s == [] then pat == [] else Matches(Tokenize(pat), s, nocase)
  {
    if s == [] {
      return pat == [];
    }
    var tokens := TokenizeByIndex(pat);
    var n := |s|;
    var dp := seq(n + 1, j => j == 0);
    for i := 0 to |tokens|
      invariant |dp| == n + 1
      invariant forall j :: 0 <= j <= n ==> (dp[j] <==> Matches(tokens[..i], s[..j], nocase))
    {
      ghost var done := tokens[..i];
      assert tokens[..i + 1] == done + [tokens[i]];
      var next := OracleRow(done, tokens[i], s, nocase, dp);
      dp := next;
    }
    assert tokens[..|tokens|] == tokens && s[..n] == s;
    return dp[n];
  }

  method OracleRow(ghost done: seq<Token>, t: Token, s: Bytes, nocase: bool, dp: seq<bool>) returns (next: seq<bool>)
    requires |dp| == |s| + 1
    requires forall j :: 0 <= j <= |s| ==> (dp[j] <==> Matches(done, s[..j], nocase))
    ensures |next| == |s| + 1
    ensures forall j :: 0 <= j <= |s| ==> (next[j] <==> Matches(done + [t], s[..j], nocase))
  {
    var n := |s|;
    next := [];
    if t.Star? {
      var seen := false;
      for j := 0 to n + 1
        invariant |next| == j
        invariant seen <==> exists k :: 0 <= k < j && dp[k]
        invariant forall i :: 0 <= i < j ==> (next[i] <==> exists k :: 0 <= k <= i && dp[k])
      {
        seen := seen || dp[j];
        next := next + [seen];
      }
    } else {
      next := [false];
      for j := 1 to n + 1
        invariant |next| == j
        invariant forall i :: 0 <= i < j ==> (next[i] <==> i > 0 && dp[i - 1] && TokenMatches(t, s[i - 1], nocase))
      {
        next := next + [dp[j - 1] && TokenMatches(t, s[j - 1], nocase)];
      }
    }
    forall j | 0 <= j <= n ensures next[j] <==> Matches(done + [t], s[..j], nocase) {
      var prefix := s[..j];
      LastToken(done, t, prefix, nocase);
      forall k | 0 <= k <= j ensures prefix[..k] == s[..k] {}
    }
  }

  /** The server's matcher agrees with the reference matcher on every pattern that nests few enough stars. */
  method MatchersAgree(pat: Bytes, s: Bytes, nocase: bool) returns (fast: bool, simple: bool)
    ensures fast == (simple && NestedStars(Tokenize(pat)) <= MAX_STAR_NESTING)
  {
    ghost var calls;
    fast, calls := GlobMatch(pat, s, nocase);
    simple := Oracle(pat, s, nocase);
  }

  /** `*a` repeated, and a string it ought to match. */
  function Deep(n: nat): Bytes { if n == 0 then [] else [STAR, 0x61] + Deep(n - 1) }

  function Letters(n: nat): Bytes { if n == 0 then [] else [0x61] + Letters(n - 1) }

  lemma {:induction false} DeepMatches(n: nat, nocase: bool)
    ensures NestedStars(Tokenize(Deep(n))) == n && Matches(Tokenize(Deep(n)), Letters(n), nocase)
  {
    if n > 0 {
      DeepMatches(n - 1, nocase);
      var pat, s := Deep(n), Letters(n);
      TokenizeStep(pat);
      TokenizeStep(pat[1..]);
      assert SkipStars(pat) == pat[1..] && pat[1..][1..] == Deep(n - 1);
      assert s[1..] == Letters(n - 1) && s[0..] == s;
      var ts := Tokenize(pat[1..]);
      assert ts[1..] == Tokenize(Deep(n - 1)) && Matches(ts, s, nocase);
      StarMatchesFrom(Tokenize(pat), s, 0, nocase);
    }
  }

  /** The nesting cap is visible: one star group too many and a string the pattern means is refused. */
  lemma NestingCapRefuses(nocase: bool)
    ensures Matches(Tokenize(Deep(1001)), Letters(1001), nocase) && !Selected(0, Deep(1001), Letters(1001), nocase)
    ensures Selected(0, Deep(1000), Letters(1000), nocase)
  {
    DeepMatches(1001, nocase);
    DeepMatches(1000, nocase);
  }
}
