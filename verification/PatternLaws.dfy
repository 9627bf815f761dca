/**
  What patterns mean by their text: one law for each way a pattern can begin,
  and which single bytes the tokens that stand for one byte select.
 */
module PatternLaws {
  import opened ByteStrings
  import opened Pattern

  /** A pattern against a whole string, without the nesting cap. */
  ghost predicate Means(pat: Bytes, s: Bytes, nocase: bool) { Matches(Tokenize(pat), s, nocase) }

  lemma FirstToken(pat: Bytes, s: Bytes, nocase: bool)
    requires pat != [] && pat[0] != STAR
    ensures var (t, rest) := NextToken(pat);
      Means(pat, s, nocase) <==> s != [] && TokenMatches(t, s[0], nocase) && Means(rest, s[1..], nocase)
  {
    TokenizeStep(pat);
  }

  // ---- How a pattern begins ----------------------------------------------

  predicate Ordinary(x: Byte) { x != STAR && x != QUESTION && x != OPEN && x != BACKSLASH }

  lemma EmptyMeans(s: Bytes, nocase: bool)
    ensures Means([], s, nocase) <==> s == []
  {
  }

  /** An ordinary byte stands for itself. */
  lemma OrdinaryMeans(x: Byte, pat: Bytes, s: Bytes)
    requires Ordinary(x)
    ensures Means([x] + pat, s, false) <==> s != [] && s[0] == x && Means(pat, s[1..], false)
  {
    FirstToken([x] + pat, s, false);
    assert ([x] + pat)[1..] == pat;
  }

  /** So does any byte behind a backslash, and a backslash at the end. */
  lemma EscapedMeans(x: Byte, pat: Bytes, s: Bytes)
    ensures Means([BACKSLASH, x] + pat, s, false) <==> s != [] && s[0] == x && Means(pat, s[1..], false)
    ensures Means([BACKSLASH], s, false) <==> s == [BACKSLASH]
  {
    FirstToken([BACKSLASH, x] + pat, s, false);
    assert ([BACKSLASH, x] + pat)[2..] == pat;
    FirstToken([BACKSLASH], s, false);
    if s != [] { assert s == [s[0]] + s[1..]; }
  }

  /** A question mark stands for any one byte. */
  lemma AnyMeans(pat: Bytes, s: Bytes, nocase: bool)
    ensures Means([QUESTION] + pat, s, nocase) <==> s != [] && Means(pat, s[1..], nocase)
  {
    FirstToken([QUESTION] + pat, s, nocase);
    assert ([QUESTION] + pat)[1..] == pat;
  }

  /** A star stands for any run of bytes. */
  lemma StarMeans(pat: Bytes, s: Bytes, nocase: bool)
    ensures Means([STAR] + pat, s, nocase) <==> exists k :: 0 <= k <= |s| && Means(pat, s[k..], nocase)
  {
    var all := [STAR] + pat;
    TokenizeStep(all);
    assert all[1..] == pat;
    if pat != [] && pat[0] == STAR {
      TokenizeStep(pat);
      StarAbsorbs(Tokenize(pat), s, nocase);
    }
  }

  /** Where a star stops. */
  lemma StarStops(ts: seq<Token>, s: Bytes, nocase: bool) returns (j: nat)
    requires ts != [] && ts[0].Star? && Matches(ts, s, nocase)
    ensures j <= |s| && Matches(ts[1..], s[j..], nocase)
  {
    j :| 0 <= j <= |s| && Matches(ts[1..], s[j..], nocase);
  }

  /** What a pattern that starts with a star matches, it also matches with more bytes before it. */
  lemma StarLengthens(ts: seq<Token>, s: Bytes, k: nat, nocase: bool)
    requires ts != [] && ts[0].Star? && k <= |s| && Matches(ts, s[k..], nocase)
    ensures Matches(ts, s, nocase)
  {
    hide Matches;
    var j := StarStops(ts, s[k..], nocase);
    assert s[k..][j..] == s[k + j..];
    StarMatchesFrom(ts, s, k + j, nocase);
  }

  /** A star before a star adds nothing. */
  lemma StarAbsorbs(ts: seq<Token>, s: Bytes, nocase: bool)
    requires ts != [] && ts[0].Star?
    ensures Matches(ts, s, nocase) <==> exists k :: 0 <= k <= |s| && Matches(ts, s[k..], nocase)
  {
    hide Matches;
    assert s[0..] == s;
    if k :| 0 <= k <= |s| && Matches(ts, s[k..], nocase) {
      StarLengthens(ts, s, k, nocase);
    }
  }

  // ---- Classes -----------------------------------------------------------

  /** Of a class and the same class with a caret, exactly one takes a byte. */
  lemma NegatedMeans(body: Bytes, s: Bytes, nocase: bool)
    requires body == [] || body[0] != CARET
    ensures Means([OPEN] + body, s, nocase) || Means([OPEN, CARET] + body, s, nocase) <==>
      s != [] && Means(ClassBody(body).1, s[1..], nocase)
    ensures !(Means([OPEN] + body, s, nocase) && Means([OPEN, CARET] + body, s, nocase))
  {
    FirstToken([OPEN] + body, s, nocase);
    FirstToken([OPEN, CARET] + body, s, nocase);
    assert ([OPEN] + body)[1..] == body && ([OPEN, CARET] + body)[2..] == body;
  }

  /** The body of a class that reaches to the closing bracket put behind it. */
  predicate Whole(body: Bytes) { ClassBody(body + [CLOSE]).1 == [] }

  /** A body without a closing bracket does. */
  lemma {:induction false} BodyCloses(body: Bytes)
    requires CLOSE !in body
    ensures Whole(body)
    decreases |body|
  {
    var text := body + [CLOSE];
    if body != [] {
      var n := if body[0] == BACKSLASH then 2 else if |text| >= 3 && text[1] == MINUS then 3 else 1;
      if n <= |body| {
        assert text[n..] == body[n..] + [CLOSE];
        BodyCloses(body[n..]);
      } else {
        assert text[n..] == [];
      }
    }
  }

  /** Which byte `c` the class with the body `body` selects. */
  ghost predicate Picks(body: Bytes, c: Byte, nocase: bool) {
    Selected(0, [OPEN] + body + [CLOSE], [c], nocase)
  }

  lemma OneToken(pat: Bytes, c: Byte, nocase: bool)
    requires pat != [] && pat[0] != STAR && NextToken(pat).1 == []
    ensures Selected(0, pat, [c], nocase) <==> TokenMatches(NextToken(pat).0, c, nocase)
  {
    TokenizeStep(pat);
    FirstToken(pat, [c], nocase);
  }

  lemma PicksMember(body: Bytes, c: Byte, nocase: bool)
    requires Whole(body) && (body == [] || body[0] != CARET)
    ensures Picks(body, c, nocase) <==> AnyMember(ClassBody(body + [CLOSE]).0, c, nocase)
  {
    var pat := [OPEN] + body + [CLOSE];
    assert pat[1..] == body + [CLOSE];
    OneToken(pat, c, nocase);
  }

  /** A caret negates a class. */
  lemma CaretNegates(body: Bytes, c: Byte, nocase: bool)
    requires Whole(body) && (body == [] || body[0] != CARET)
    ensures Selected(0, [OPEN, CARET] + body + [CLOSE], [c], nocase)
      <==> !Selected(0, [OPEN] + body + [CLOSE], [c], nocase)
  {
    PicksMember(body, c, nocase);
    var pat := [OPEN, CARET] + body + [CLOSE];
    assert pat[2..] == body + [CLOSE];
    OneToken(pat, c, nocase);
  }

  lemma EmptyClass(c: Byte, nocase: bool)
    ensures !Selected(0, [OPEN, CLOSE], [c], nocase) && Selected(0, [OPEN, CARET, CLOSE], [c], nocase)
  {
    OneToken([OPEN, CLOSE], c, nocase);
    OneToken([OPEN, CARET, CLOSE], c, nocase);
  }

  /** A plain member adds its byte to a class. */
  lemma PlainMember(x: Byte, body: Bytes, c: Byte)
    requires x != CLOSE && x != BACKSLASH && x != CARET
    requires Whole(body) && (body == [] || (body[0] != MINUS && body[0] != CARET))
    ensures Picks([x] + body, c, false) <==> c == x || Picks(body, c, false)
  {
    var text := [x] + body + [CLOSE];
    assert text == ([x] + body) + [CLOSE] && text[1..] == body + [CLOSE];
    ClassBodyStep(text, c, false);
    PicksMember(body, c, false);
    PicksMember([x] + body, c, false);
  }

  /** An escaped member adds its byte, whatever it is. */
  lemma EscapedMember(x: Byte, body: Bytes, c: Byte, nocase: bool)
    requires Whole(body) && (body == [] || body[0] != CARET)
    ensures Picks([BACKSLASH, x] + body, c, nocase) <==> c == x || Picks(body, c, nocase)
  {
    var text := [BACKSLASH, x] + body + [CLOSE];
    assert text == ([BACKSLASH, x] + body) + [CLOSE] && text[2..] == body + [CLOSE];
    ClassBodyStep(text, c, nocase);
    PicksMember(body, c, nocase);
    PicksMember([BACKSLASH, x] + body, c, nocase);
  }

  lemma RangeStep(x: Byte, y: Byte, body: Bytes, c: Byte, nocase: bool)
    requires x != CLOSE && x != BACKSLASH && x != CARET
    requires Whole(body) && (body == [] || body[0] != CARET)
    ensures Picks([x, MINUS, y] + body, c, nocase) <==>
      MemberMatches(Range(x, y), c, nocase) || Picks(body, c, nocase)
  {
    var text := [x, MINUS, y] + body + [CLOSE];
    assert text == ([x, MINUS, y] + body) + [CLOSE] && text[3..] == body + [CLOSE];
    ClassBodyStep(text, c, nocase);
    PicksMember(body, c, nocase);
    PicksMember([x, MINUS, y] + body, c, nocase);
  }

  /** A range adds the bytes between its ends, in whichever order they are given. */
  lemma RangeMember(x: Byte, y: Byte, body: Bytes, c: Byte)
    requires x != CLOSE && x != BACKSLASH && x != CARET
    requires Whole(body) && (body == [] || body[0] != CARET)
    ensures Picks([x, MINUS, y] + body, c, false) <==> x <= c <= y || y <= c <= x || Picks(body, c, false)
  {
    RangeStep(x, y, body, c, false);
  }

  // ---- Patterns that stand for one byte ----------------------------------

  /** `x`, `\x` and `[x]` select the byte `x` alone. */
  lemma ByteSelects(x: Byte, c: Byte)
    ensures Ordinary(x) ==> (Selected(0, [x], [c], false) <==> c == x)
    ensures Selected(0, [BACKSLASH, x], [c], false) <==> c == x
    ensures x != CLOSE && x != BACKSLASH && x != CARET ==> (Selected(0, [OPEN, x, CLOSE], [c], false) <==> c == x)
  {
    if Ordinary(x) { OneToken([x], c, false); }
    OneToken([BACKSLASH, x], c, false);
    if x != CLOSE && x != BACKSLASH && x != CARET {
      PlainMember(x, [], c);
      EmptyClass(c, false);
      assert [OPEN] + ([x] + []) + [CLOSE] == [OPEN, x, CLOSE] && [OPEN] + [] + [CLOSE] == [OPEN, CLOSE];
    }
  }

  /** `[x-y]` selects what lies between `x` and `y`. */
  lemma RangeSelects(x: Byte, y: Byte, c: Byte)
    requires x != CLOSE && x != BACKSLASH && x != CARET
    ensures Selected(0, [OPEN, x, MINUS, y, CLOSE], [c], false) <==> (if x <= y then x <= c <= y else y <= c <= x)
  {
    RangeMember(x, y, [], c);
    EmptyClass(c, false);
    assert [OPEN] + ([x, MINUS, y] + []) + [CLOSE] == [OPEN, x, MINUS, y, CLOSE]
      && [OPEN] + [] + [CLOSE] == [OPEN, CLOSE];
  }

  /** A question mark selects every byte, a star every name but the empty one. */
  lemma WildSelects(c: Byte, s: Bytes, nocase: bool)
    ensures Selected(0, [QUESTION], [c], nocase) && (Selected(0, [STAR], s, nocase) <==> s != [])
  {
    OneToken([QUESTION], c, nocase);
    TokenizeStep([STAR]);
    StarMatchesFrom([Star], s, |s|, nocase);
  }

  /** The upper and lower case of a letter are 32 apart. */
  predicate SameLetter(x: Byte, c: Byte) { 0x41 <= x <= 0x5A && c == x + 0x20 }

  /** Without regard to case a byte selects itself and the same letter in the other case. */
  lemma CaseSelects(x: Byte, c: Byte)
    requires Ordinary(x)
    ensures Selected(0, [x], [c], true) <==> c == x || SameLetter(x, c) || SameLetter(c, x)
  {
    OneToken([x], c, true);
  }

  /** A plain member of a class does likewise; an escaped one selects itself alone (`EscapedMember`). */
  lemma CaseMember(x: Byte, body: Bytes, c: Byte)
    requires x != CLOSE && x != BACKSLASH && x != CARET
    requires Whole(body) && (body == [] || (body[0] != MINUS && body[0] != CARET))
    ensures Picks([x] + body, c, true) <==> c == x || SameLetter(x, c) || SameLetter(c, x) || Picks(body, c, true)
  {
    var text := [x] + body + [CLOSE];
    assert text == ([x] + body) + [CLOSE] && text[1..] == body + [CLOSE];
    ClassBodyStep(text, c, true);
    PicksMember(body, c, true);
    PicksMember([x] + body, c, true);
  }

  function Lower(b: Byte): Byte { if 0x41 <= b <= 0x5A then b + 0x20 else b }

  /** The ends of a range are put in order first, and then compared in lower case. */
  lemma CaseRange(x: Byte, y: Byte, body: Bytes, c: Byte)
    requires x != CLOSE && x != BACKSLASH && x != CARET && x <= y
    requires Whole(body) && (body == [] || body[0] != CARET)
    ensures Picks([x, MINUS, y] + body, c, true) <==> Lower(x) <= Lower(c) <= Lower(y) || Picks(body, c, true)
    ensures y != CLOSE && y != BACKSLASH && y != CARET ==>
      (Picks([y, MINUS, x] + body, c, true) <==> Picks([x, MINUS, y] + body, c, true))
  {
    RangeStep(x, y, body, c, true);
    if y != CLOSE && y != BACKSLASH && y != CARET { RangeStep(y, x, body, c, true); }
  }
}
