/** JSON values and their text: the serializer never writes two values alike. */
module JsonText {
  import opened ByteStrings

  /** A parsed value; a number is known by the bits of its double. */
  datatype JValue =
    | Null
    | Bool(b: bool)
    | Number(bits: nat)
    | Str(s: string)
    | Arr(items: seq<JValue>)
    | Obj(fields: map<string, JValue>)

  // ---- Key order ---------------------------------------------------------

  predicate Before(a: string, b: string) {
    b != "" && (a == "" || a[0] < b[0] || (a[0] == b[0] && Before(a[1..], b[1..])))
  }

  /** A proper prefix comes before, and otherwise the first difference decides. */
  lemma {:induction false} BeforeExact(a: string, b: string, i: nat)
    requires i <= |a| && i <= |b| && a[..i] == b[..i] && (i == |a| || i == |b| || a[i] != b[i])
    ensures Before(a, b) <==> i < |b| && (i == |a| || a[i] < b[i])
  {
    if i > 0 {
      assert a[0] == a[..i][0] && b[0] == b[..i][0];
      assert a[1..][..i - 1] == a[..i][1..] && b[1..][..i - 1] == b[..i][1..];
      BeforeExact(a[1..], b[1..], i - 1);
    }
  }

  lemma {:induction false} BeforeTotal(a: string, b: string)
    ensures a == b || Before(a, b) || Before(b, a)
    ensures !(Before(a, b) && Before(b, a)) && !Before(a, a)
  {
    if a != "" && b != "" {
      BeforeTotal(a[1..], b[1..]);
      assert a == [a[0]] + a[1..] && b == [b[0]] + b[1..];
    }
    if a != "" { BeforeTotal(a[1..], a[1..]); }
  }

  lemma {:induction false} BeforeTransitive(a: string, b: string, c: string)
    requires Before(a, b) && Before(b, c)
    ensures Before(a, c)
  {
    if a != "" && a[0] == b[0] == c[0] { BeforeTransitive(a[1..], b[1..], c[1..]); }
  }

  predicate IsFirst(k: string, s: set<string>) {
    k in s && forall l :: l in s && l != k ==> Before(k, l)
  }

  lemma {:induction false} FirstExists(s: set<string>)
    requires s != {}
    ensures exists k :: IsFirst(k, s)
    decreases |s|
  {
    var k :| k in s;
    var rest := s - {k};
    if rest == {} {
      assert s == {k};
      assert IsFirst(k, s);
    } else {
      FirstExists(rest);
      var f :| IsFirst(f, rest);
      BeforeTotal(k, f);
      if Before(k, f) {
        forall l | l in s && l != k ensures Before(k, l) {
          assert l in rest;
          if l != f { BeforeTransitive(k, f, l); }
        }
        assert IsFirst(k, s);
      } else {
        assert IsFirst(f, s);
      }
    }
  }

  lemma FirstUnique(s: set<string>, k: string, l: string)
    requires IsFirst(k, s) && IsFirst(l, s)
    ensures k == l
  {
    BeforeTotal(k, l);
  }

  function FirstKey(s: set<string>): (k: string)
    requires s != {}
    ensures IsFirst(k, s)
  {
    FirstExists(s);
    assert forall k, l :: IsFirst(k, s) && IsFirst(l, s) ==> k == l by {
      forall k, l | IsFirst(k, s) && IsFirst(l, s) ensures k == l { FirstUnique(s, k, l); }
    }
    var k :| IsFirst(k, s);
    k
  }

  /** The keys of an object in the order they are stored and written. */
  function SortedKeys(s: set<string>): (keys: seq<string>)
    ensures |keys| == |s| && (forall k :: k in keys <==> k in s)
    ensures forall i, j :: 0 <= i < j < |keys| ==> Before(keys[i], keys[j])
    decreases |s|
  {
    if s == {} then []
    else
      var k := FirstKey(s);
      [k] + SortedKeys(s - {k})
  }

  // ---- Strings -----------------------------------------------------------

  function HexDigit(n: nat): char
    requires n < 16
  {
    if n < 10 then '0' + n as char else 'a' + (n - 10) as char
  }

  function HexValue(c: char): Option<nat> {
    if '0' <= c <= '9' then Some((c - '0') as nat)
    else if 'a' <= c <= 'f' then Some((c - 'a') as nat + 10)
    else if 'A' <= c <= 'F' then Some((c - 'A') as nat + 10)
    else None
  }

  /** A backslash, `u` and the four hexadecimal digits of `n`. */
  function UnicodeEscape(n: nat): string
    requires n < 0x10000
  {
    ['\\', 'u', HexDigit(n / 4096), HexDigit(n / 256 % 16), HexDigit(n / 16 % 16), HexDigit(n % 16)]
  }

  /** How a character is written inside a string. */
  function EscapeChar(c: char): string {
    if c == '\"' then "\\\""
    else if c == '\\' then "\\\\"
    else if c == '\n' then "\\n"
    else if c == '\r' then "\\r"
    else if c == '\t' then "\\t"
    else if c == '<' || c == '>' || c == '&' || c as int == 0x2028
      || c as int == 0x2029 || c as int < 0x20 then UnicodeEscape(c as nat)
    else [c]
  }

  function EscapeString(s: string): string {
    if s == "" then "" else EscapeChar(s[0]) + EscapeString(s[1..])
  }

  lemma {:induction false} EscapeAppend(s: string, c: char)
    ensures EscapeString(s + [c]) == EscapeString(s) + EscapeChar(c)
  {
    if s == "" {
      assert s + [c] == [c];
    } else {
      assert (s + [c])[1..] == s[1..] + [c];
      EscapeAppend(s[1..], c);
    }
  }

  /** Appends a quoted string. */
  method PushJsonString(out: string, s: string) returns (r: string)
    ensures r == out + "\"" + EscapeString(s) + "\""
  {
    hide EscapeChar;
    ghost var head := out + "\"";
    r := out + "\"";
    for i := 0 to |s|
      invariant r == head + EscapeString(s[..i])
    {
      var piece := EscapePiece(s[i]);
      r := r + piece;
      EscapeAppend(s[..i], s[i]);
      assert s[..i + 1] == s[..i] + [s[i]];
    }
    assert s[..|s|] == s;
    r := r + "\"";
  }

  method EscapePiece(c: char) returns (piece: string)
    ensures piece == EscapeChar(c)
  {
    match c
    case '\"' => piece := "\\\"";
    case '\\' => piece := "\\\\";
    case '\n' => piece := "\\n";
    case '\r' => piece := "\\r";
    case '\t' => piece := "\\t";
    case '<' => piece := "\\u003c";
    case '>' => piece := "\\u003e";
    case '&' => piece := "\\u0026";
    case _ =>
      if c as int == 0x2028 {
        piece := "\\u2028";
      } else if c as int == 0x2029 {
        piece := "\\u2029";
      } else if c as int < 0x20 {
        piece := UnicodeEscape(c as nat);
      } else {
        piece := [c];
      }
  }

  // ---- Reading strings, by section 7 of RFC 8259 -------------------------

  /** The value of four hexadecimal digits. */
  function ReadHex4(t: string): Option<nat> {
    if |t| < 4 then None
    else match (HexValue(t[0]), HexValue(t[1]), HexValue(t[2]), HexValue(t[3]))
      case (Some(a), Some(b), Some(c), Some(d)) => Some(a * 4096 + b * 256 + c * 16 + d)
      case _ => None
  }

  predicate IsScalar(n: nat) { n < 0xD800 || 0xE000 <= n < 0x110000 }

  /** One character after a backslash, and how much of the text it takes. */
  function ReadEscape(t: string): (r: Option<(char, nat)>)
    ensures r.Some? ==> 0 < r.value.1 <= |t|
  {
    if t == "" then None
    else if t[0] == '\"' || t[0] == '\\' || t[0] == '/' then Some((t[0], 1))
    else if t[0] == 'b' then Some((8 as char, 1))
    else if t[0] == 'f' then Some((12 as char, 1))
    else if t[0] == 'n' then Some(('\n', 1))
    else if t[0] == 'r' then Some(('\r', 1))
    else if t[0] == 't' then Some(('\t', 1))
    else if t[0] != 'u' then None
    else match ReadHex4(t[1..])
      case None => None
      case Some(n) =>
        if IsScalar(n) then Some((n as char, 5))
        else if 0xD800 <= n < 0xDC00 && |t| >= 11 && t[5..7] == "\\u" then
          match ReadHex4(t[7..])
          case Some(low) =>
            if 0xDC00 <= low < 0xE000 then Some(((0x10000 + (n - 0xD800) * 0x400 + (low - 0xDC00)) as char, 11))
              else None
          case None => None
        else None
  }

  /** The characters up to the closing quote, and the text after it. */
  function ReadString(t: string): (r: Option<(string, string)>)
    ensures r.Some? ==> |r.value.1| < |t|
    decreases |t|
  {
    if t == "" || t[0] as int < 0x20 then None
    else if t[0] == '\"' then Some(("", t[1..]))
    else if t[0] == '\\' then
      match ReadEscape(t[1..])
      case None => None
      case Some((c, n)) =>
        match ReadString(t[1 + n..])
        case None => None
        case Some((s, rest)) => Some(([c] + s, rest))
    else
      match ReadString(t[1..])
      case None => None
      case Some((s, rest)) => Some(([t[0]] + s, rest))
  }

  lemma HexRoundTrip(n: nat)
    requires n < 16
    ensures HexValue(HexDigit(n)) == Some(n)
  {
  }

  lemma Nibbles(n: nat)
    requires n < 0x10000
    ensures n / 4096 < 16 && n == n / 4096 * 4096 + n / 256 % 16 * 256 + n / 16 % 16 * 16 + n % 16
  {
    var a := n / 16;
    var b := a / 16;
    assert n / 256 == b && n / 4096 == b / 16;
    assert n == a * 16 + n % 16 && a == b * 16 + a % 16 && b == b / 16 * 16 + b % 16;
  }

  lemma Hex4RoundTrip(a: nat, b: nat, c: nat, d: nat, t: string)
    requires a < 16 && b < 16 && c < 16 && d < 16
    ensures ReadHex4([HexDigit(a), HexDigit(b), HexDigit(c), HexDigit(d)] + t) == Some(a * 4096 + b * 256 + c * 16 + d)
  {
    hide HexDigit, HexValue;
    HexRoundTrip(a);
    HexRoundTrip(b);
    HexRoundTrip(c);
    HexRoundTrip(d);
  }

  lemma UnicodeRoundTrip(n: nat, t: string)
    requires n < 0xD800
    ensures ReadEscape(UnicodeEscape(n)[1..] + t) == Some((n as char, 5))
  {
    hide HexDigit, ReadHex4;
    Nibbles(n);
    Hex4RoundTrip(n / 4096, n / 256 % 16, n / 16 % 16, n % 16, t);
    var e := UnicodeEscape(n)[1..] + t;
    assert e[1..] == [HexDigit(n / 4096), HexDigit(n / 256 % 16), HexDigit(n / 16 % 16), HexDigit(n % 16)] + t;
  }

  /** A character stands for itself, or its escape reads back as it. */
  lemma EscapeReads(c: char, t: string)
    ensures var e := EscapeChar(c);
      if |e| == 1 then e == [c] && c as int >= 0x20 && c != '\"' && c != '\\'
      else |e| > 1 && e[0] == '\\' && ReadEscape(e[1..] + t) == Some((c, |e| - 1))
  {
    hide HexDigit, ReadHex4;
    if |EscapeChar(c)| == 6 {
      UnicodeRoundTrip(c as nat, t);
    }
  }

  lemma EscapeCharRoundTrip(c: char, t: string)
    requires ReadString(t).Some?
    ensures ReadString(EscapeChar(c) + t) == Some(([c] + ReadString(t).value.0, ReadString(t).value.1))
  {
    hide ReadEscape, EscapeChar;
    var e := EscapeChar(c);
    EscapeReads(c, t);
    assert (e + t)[1..] == e[1..] + t && (e + t)[|e|..] == t;
  }

  lemma Grouped(a: string, b: string, c: string, d: string)
    ensures a + b + c + d == a + (b + c + d)
  {
  }

  /** A written string reads back as itself and tells where it ends. */
  lemma {:induction false} StringRoundTrip(s: string, rest: string)
    ensures ReadString(EscapeString(s) + "\"" + rest) == Some((s, rest))
  {
    if s == "" {
      assert EscapeString(s) + "\"" + rest == "\"" + rest;
    } else {
      StringRoundTrip(s[1..], rest);
      var t := EscapeString(s[1..]) + "\"" + rest;
      EscapeCharRoundTrip(s[0], t);
      assert s == [s[0]] + s[1..] && EscapeString(s) == EscapeChar(s[0]) + EscapeString(s[1..]);
      hide EscapeChar, EscapeString;
      Grouped(EscapeChar(s[0]), EscapeString(s[1..]), "\"", rest);
    }
  }

  // ---- Values ------------------------------------------------------------

  type Printer = nat -> string

  function Quoted(s: string): string { "\"" + EscapeString(s) + "\"" }

  function Serialize(v: JValue, num: Printer): string
    decreases v
  {
    match v
    case Null => "null"
    case Bool(b) => if b then "true" else "false"
    case Number(bits) => num(bits)
    case Str(s) => Quoted(s)
    case Arr(items) => "[" + ItemsText(v, 0, num) + "]"
    case Obj(fields) => "{" + FieldsText(v, SortedKeys(fields.Keys), 0, num) + "}"
  }

  function Comma(i: nat): string { if i == 0 then "" else "," }

  /** The elements of an array from index `i` on. */
  function ItemsText(v: JValue, i: nat, num: Printer): string
    requires v.Arr? && i <= |v.items|
    decreases v, |v.items| - i
  {
    if i == |v.items| then "" else Comma(i) + Serialize(v.items[i], num) + ItemsText(v, i + 1, num)
  }

  /** The members of an object for the keys from index `i` on. */
  function FieldsText(v: JValue, keys: seq<string>, i: nat, num: Printer): string
    requires v.Obj? && i <= |keys| && forall k :: k in keys ==> k in v.fields
    decreases v, |keys| - i
  {
    if i == |keys| then ""
    else Comma(i) + Quoted(keys[i]) + ":" + Serialize(v.fields[keys[i]], num) + FieldsText(v, keys, i + 1, num)
  }

  lemma Regroup<T>(a: seq<T>, b: seq<T>, c: seq<T>, d: seq<T>)
    ensures (a + b + c) + d == a + (b + (c + d))
  {
  }

  lemma RegroupField<T>(a: seq<T>, b: seq<T>, c: seq<T>, d: seq<T>, e: seq<T>, f: seq<T>)
    ensures (a + b + c + d + e) + f == a + (b + (c + (d + (e + f))))
  {
    Regroup(a, b, c, d + e + f);
    assert (a + b + c + d + e) + f == (a + b + c) + (d + e + f);
  }

  method SerializeValue(v: JValue, num: Printer) returns (out: string)
    ensures out == Serialize(v, num)
    ensures forall parse :: GoodPrinter(num) && Inverse(parse, num) ==> ReadValue(out, parse) == Some((v, ""))
    decreases v
  {
    forall parse | GoodPrinter(num) && Inverse(parse, num)
      ensures ReadValue(Serialize(v, num), parse) == Some((v, ""))
    {
      ReadsBack(v, "", num, parse);
      assert Serialize(v, num) + "" == Serialize(v, num);
    }
    hide ReadValue, GoodPrinter, Inverse;
    match v
    case Null => out := "null";
    case Bool(b) => out := if b then "true" else "false";
    case Number(bits) => out := num(bits);
    case Str(s) =>
      out := PushJsonString("", s);
      assert "" + "\"" == "\"";
    case Arr(_) => out := SerializeItems(v, num);
    case Obj(_) => out := SerializeFields(v, num);
  }

  method SerializeItems(v: JValue, num: Printer) returns (out: string)
    requires v.Arr?
    ensures out == "[" + ItemsText(v, 0, num) + "]"
    decreases v, 0
  {
    hide Serialize, ItemsText;
    ghost var all := "[" + ItemsText(v, 0, num);
    out := "[";
    for i := 0 to |v.items|
      invariant out + ItemsText(v, i, num) == all
    {
      var text := SerializeValue(v.items[i], num);
      ItemPushed(out, v, i, num);
      out := out + Comma(i) + text;
    }
    NoMoreItems(v, num);
    assert out + "" == out;
    out := out + "]";
  }

  lemma ItemPushed(out: string, v: JValue, i: nat, num: Printer)
    requires v.Arr? && i < |v.items|
    ensures out + ItemsText(v, i, num) == out + Comma(i) + Serialize(v.items[i], num) + ItemsText(v, i + 1, num)
  {
    hide Serialize;
    var text, rest := Serialize(v.items[i], num), ItemsText(v, i + 1, num);
    Regroup(out, Comma(i), text, rest);
    Regroup(Comma(i), text, rest, "");
    assert Comma(i) + text + rest == Comma(i) + (text + rest);
  }

  method SerializeFields(v: JValue, num: Printer) returns (out: string)
    requires v.Obj?
    ensures out == "{" + FieldsText(v, SortedKeys(v.fields.Keys), 0, num) + "}"
    decreases v, 0
  {
    hide Serialize, EscapeString, FieldsText, SortedKeys, ReadValue, GoodPrinter, Inverse;
    var keys := SortedKeys(v.fields.Keys);
    ghost var all := "{" + FieldsText(v, keys, 0, num);
    out := "{";
    for i := 0 to |keys|
      invariant out + FieldsText(v, keys, i, num) == all
    {
      assert keys[i] in keys;
      ghost var before := out;
      out := PushJsonString(out + Comma(i), keys[i]);
      var text := SerializeValue(v.fields[keys[i]], num);
      FieldPushed(before, v, keys, i, num);
      out := out + ":" + text;
    }
    NoMoreFields(v, keys, num);
    assert out + "" == out;
    out := out + "}";
  }

  lemma FieldPushed(before: string, v: JValue, keys: seq<string>, i: nat, num: Printer)
    requires v.Obj? && i < |keys| && forall k :: k in keys ==> k in v.fields
    ensures before + FieldsText(v, keys, i, num) ==
      ((before + Comma(i)) + "\"" + EscapeString(keys[i]) + "\"") + ":" + Serialize(v.fields[keys[i]], num)
      + FieldsText(v, keys, i + 1, num)
  {
    hide EscapeString, Serialize;
    var q, text, rest := EscapeString(keys[i]), Serialize(v.fields[keys[i]], num), FieldsText(v, keys, i + 1, num);
    assert ((before + Comma(i)) + "\"" + q + "\"") == before + Comma(i) + Quoted(keys[i]);
    RegroupField(before, Comma(i), Quoted(keys[i]), ":", text, rest);
    RegroupField(Comma(i), Quoted(keys[i]), ":", text, rest, "");
    assert Comma(i) + Quoted(keys[i]) + ":" + text + rest == Comma(i) + (Quoted(keys[i]) + (":" + (text + rest)));
  }

  // ---- Reading values, by RFC 8259 ---------------------------------------

  predicate NumberChar(c: char) { '0' <= c <= '9' || c == '-' || c == '+' || c == '.' || c == 'e' || c == 'E' }

  /** A printer for finite numbers: different numbers print differently, in number characters only. */
  ghost predicate GoodPrinter(num: Printer) {
    && (forall n :: num(n) != "" && forall i :: 0 <= i < |num(n)| ==> NumberChar(num(n)[i]))
    && (forall m, n :: num(m) == num(n) ==> m == n)
  }

  /** What may follow a value inside a document. */
  predicate Closed(t: string) { t == "" || t[0] == ',' || t[0] == ']' || t[0] == '}' }

  type Parser = string -> Option<nat>

  /** The parser for numbers reads what the printer writes. */
  ghost predicate Inverse(parse: Parser, num: Printer) { forall n: nat :: parse(num(n)) == Some(n) }

  predicate Space(c: char) { c == ' ' || c == '\t' || c == '\n' || c == '\r' }

  function Skip(t: string): (r: string)
    ensures |r| <= |t| && (t == "" || !Space(t[0]) ==> r == t)
  {
    if t != "" && Space(t[0]) then Skip(t[1..]) else t
  }

  /** How many number characters a text begins with. */
  function NumberRun(t: string): (n: nat)
    ensures n <= |t|
  {
    if t == "" || !NumberChar(t[0]) then 0 else 1 + NumberRun(t[1..])
  }

  predicate Starts(t: string, c: char) { t != "" && t[0] == c }

  /** A value at the beginning of a text, and the text after it. */
  function ReadValue(text: string, parse: Parser): (r: Option<(JValue, string)>)
    ensures r.Some? ==> |r.value.1| < |text|
    decreases |text|, 0
  {
    var t := Skip(text);
    if "null" <= t then Some((Null, t[4..]))
    else if "true" <= t then Some((Bool(true), t[4..]))
    else if "false" <= t then Some((Bool(false), t[5..]))
    else if Starts(t, '\"') then
      match ReadString(t[1..])
      case None => None
      case Some((s, rest)) => Some((Str(s), rest))
    else if Starts(t, '[') then
      if Starts(Skip(t[1..]), ']') then Some((Arr([]), Skip(t[1..])[1..]))
      else match ReadItems(t[1..], parse)
        case None => None
        case Some((items, rest)) => Some((Arr(items), rest))
    else if Starts(t, '{') then
      if Starts(Skip(t[1..]), '}') then Some((Obj(map[]), Skip(t[1..])[1..]))
      else match ReadMembers(t[1..], parse)
        case None => None
        case Some((fields, rest)) => Some((Obj(fields), rest))
    else
      var n := NumberRun(t);
      match (if n == 0 then None else parse(t[..n]))
      case None => None
      case Some(bits) => Some((Number(bits), t[n..]))
  }

  /** The elements of an array up to its closing bracket. */
  function ReadItems(text: string, parse: Parser): (r: Option<(seq<JValue>, string)>)
    ensures r.Some? ==> |r.value.1| < |text|
    decreases |text|, 1
  {
    match ReadValue(text, parse)
    case None => None
    case Some((v, after)) =>
      var t := Skip(after);
      if Starts(t, ']') then Some(([v], t[1..]))
      else if !Starts(t, ',') then None
      else match ReadItems(t[1..], parse)
        case None => None
        case Some((items, rest)) => Some(([v] + items, rest))
  }

  /** The members of an object up to its closing brace; of two members with one name the later counts. */
  function ReadMembers(text: string, parse: Parser): (r: Option<(map<string, JValue>, string)>)
    ensures r.Some? ==> |r.value.1| < |text|
    decreases |text|, 1
  {
    match ReadName(text)
    case None => None
    case Some((name, value)) =>
      match ReadValue(value, parse)
      case None => None
      case Some((v, after)) =>
        var t := Skip(after);
        if Starts(t, '}') then Some((map[name := v], t[1..]))
        else if !Starts(t, ',') then None
        else match ReadMembers(t[1..], parse)
          case None => None
          case Some((fields, rest)) => Some((map[name := v] + fields, rest))
  }

  /** The name of a member and the text after its colon. */
  function ReadName(text: string): (r: Option<(string, string)>)
    ensures r.Some? ==> |r.value.1| < |text|
  {
    var t := Skip(text);
    if !Starts(t, '\"') then None
    else match ReadString(t[1..])
      case None => None
      case Some((name, after)) => if Starts(Skip(after), ':') then Some((name, Skip(after)[1..])) else None
  }

  // ---- What is written reads back ----------------------------------------

  lemma {:induction false} NumberRunOf(a: string, rest: string)
    requires Closed(rest) && forall i :: 0 <= i < |a| ==> NumberChar(a[i])
    ensures NumberRun(a + rest) == |a|
  {
    if a == "" {
      assert a + rest == rest;
    } else {
      assert (a + rest)[1..] == a[1..] + rest;
      NumberRunOf(a[1..], rest);
    }
  }

  lemma NumberReads(n: nat, rest: string, num: Printer, parse: Parser)
    requires GoodPrinter(num) && Inverse(parse, num) && Closed(rest)
    ensures ReadValue(num(n) + rest, parse) == Some((Number(n), rest))
  {
    var t := num(n) + rest;
    NumberRunOf(num(n), rest);
    assert t[0] == num(n)[0] && t[..|num(n)|] == num(n) && t[|num(n)|..] == rest;
  }

  lemma StringReads(s: string, rest: string, parse: Parser)
    ensures ReadValue(Quoted(s) + rest, parse) == Some((Str(s), rest))
  {
    hide EscapeString, ReadString;
    var t := Quoted(s) + rest;
    assert t[1..] == EscapeString(s) + "\"" + rest;
    StringRoundTrip(s, rest);
  }

  lemma NameReads(s: string, rest: string)
    ensures ReadName(Quoted(s) + (":" + rest)) == Some((s, rest))
  {
    hide EscapeString, ReadString;
    var t := Quoted(s) + (":" + rest);
    assert t[1..] == EscapeString(s) + "\"" + (":" + rest);
    StringRoundTrip(s, ":" + rest);
    assert (":" + rest)[1..] == rest;
  }

  lemma LiteralReads(v: JValue, rest: string, num: Printer, parse: Parser)
    requires v.Null? || v.Bool?
    ensures ReadValue(Serialize(v, num) + rest, parse) == Some((v, rest))
  {
    var t := Serialize(v, num) + rest;
    assert t[0] == Serialize(v, num)[0] && t[|Serialize(v, num)|..] == rest;
  }

  /** A value begins with neither a space nor a closing bracket. */
  lemma ValueStart(v: JValue, num: Printer)
    requires GoodPrinter(num)
    ensures var t := Serialize(v, num); t != "" && !Space(t[0]) && t[0] != ']'
  {
  }

  /** The reader gives back every nested value from its text, and what follows it. */
  lemma {:induction false} ReadsBack(v: JValue, rest: string, num: Printer, parse: Parser)
    requires GoodPrinter(num) && Inverse(parse, num) && Closed(rest)
    ensures ReadValue(Serialize(v, num) + rest, parse) == Some((v, rest))
    decreases v, 2, 0
  {
    hide ReadValue, GoodPrinter, Inverse, Closed, Quoted, ItemsText, FieldsText, SortedKeys;
    match v
    case Null => LiteralReads(v, rest, num, parse);
    case Bool(_) => LiteralReads(v, rest, num, parse);
    case Number(bits) => NumberReads(bits, rest, num, parse);
    case Str(s) => StringReads(s, rest, parse);
    case Arr(_) => ArrayReads(v, rest, num, parse);
    case Obj(_) => ObjectReads(v, rest, num, parse);
  }

  lemma BracketReads(t: string, parse: Parser)
    requires |t| >= 2 && !Space(t[1])
    ensures t[0] == '[' && t[1] == ']' ==> ReadValue(t, parse) == Some((Arr([]), t[1..][1..]))
    ensures t[0] == '[' && t[1] != ']' && ReadItems(t[1..], parse).Some? ==>
      ReadValue(t, parse) == Some((Arr(ReadItems(t[1..], parse).value.0), ReadItems(t[1..], parse).value.1))
    ensures t[0] == '{' && t[1] == '}' ==> ReadValue(t, parse) == Some((Obj(map[]), t[1..][1..]))
    ensures t[0] == '{' && t[1] != '}' && ReadMembers(t[1..], parse).Some? ==>
      ReadValue(t, parse) == Some((Obj(ReadMembers(t[1..], parse).value.0), ReadMembers(t[1..], parse).value.1))
  {
    hide ReadItems, ReadMembers;
  }

  lemma {:induction false} ArrayReads(v: JValue, rest: string, num: Printer, parse: Parser)
    requires GoodPrinter(num) && Inverse(parse, num) && Closed(rest) && v.Arr?
    ensures ReadValue(Serialize(v, num) + rest, parse) == Some((v, rest))
    decreases v, 1, 0
  {
    var items, t := ItemsText(v, 0, num), Serialize(v, num) + rest;
    Regroup("[", items, "]", rest);
    assert t[0] == '[' && t[1..] == items + ("]" + rest);
    hide GoodPrinter, Inverse, Closed, ItemsText, Serialize, ReadItems, ReadValue;
    ItemsLead(v, 0, rest, num);
    BracketReads(t, parse);
    if v.items == [] {
      assert items + ("]" + rest) == "]" + rest by { NoItems(v, num); }
      assert t[1..][1..] == rest;
    } else {
      ItemsRead(v, 0, rest, num, parse);
    }
  }

  lemma NoItems(v: JValue, num: Printer)
    requires v.Arr? && v.items == []
    ensures ItemsText(v, 0, num) == ""
  {
  }

  /** The rest of an array begins with its closing bracket, with a comma, or with its first element. */
  lemma ItemsLead(v: JValue, i: nat, s: string, num: Printer)
    requires GoodPrinter(num) && v.Arr? && i <= |v.items|
    ensures var text := ItemsText(v, i, num) + ("]" + s);
      text != "" && !Space(text[0]) && (text[0] == ']' <==> i == |v.items|) && (i > 0 ==> Closed(text))
    ensures i < |v.items| ==>
      ItemsText(v, i, num) + ("]" + s) ==
        Comma(i) + (Serialize(v.items[i], num) + (ItemsText(v, i + 1, num) + ("]" + s)))
  {
    hide Serialize, GoodPrinter;
    if i < |v.items| {
      ValueStart(v.items[i], num);
      Regroup(Comma(i), Serialize(v.items[i], num), ItemsText(v, i + 1, num), "]" + s);
    }
  }

  /** The elements from index `i` on, the comma before them left out. */
  lemma {:induction false} ItemsRead(v: JValue, i: nat, rest: string, num: Printer, parse: Parser)
    requires GoodPrinter(num) && Inverse(parse, num) && v.Arr? && i < |v.items|
    ensures ReadItems((ItemsText(v, i, num) + ("]" + rest))[|Comma(i)|..], parse) == Some((v.items[i..], rest))
    decreases v, 0, |v.items| - i
  {
    hide Serialize, GoodPrinter, Inverse, ItemsText, ReadValue;
    var text, after := ItemsText(v, i, num) + ("]" + rest), ItemsText(v, i + 1, num) + ("]" + rest);
    ItemsLead(v, i, rest, num);
    ItemsLead(v, i + 1, rest, num);
    assert text[|Comma(i)|..] == Serialize(v.items[i], num) + after;
    ReadsBack(v.items[i], after, num, parse);
    if i + 1 == |v.items| {
      NoMoreItems(v, num);
      assert after == "]" + rest && after[1..] == rest && v.items[i..] == [v.items[i]];
    } else {
      ItemsRead(v, i + 1, rest, num, parse);
      assert v.items[i..] == [v.items[i]] + v.items[i + 1..];
    }
  }

  lemma NoMoreItems(v: JValue, num: Printer)
    requires v.Arr?
    ensures ItemsText(v, |v.items|, num) == ""
  {
  }

  lemma {:induction false} ObjectReads(v: JValue, rest: string, num: Printer, parse: Parser)
    requires GoodPrinter(num) && Inverse(parse, num) && Closed(rest) && v.Obj?
    ensures ReadValue(Serialize(v, num) + rest, parse) == Some((v, rest))
    decreases v, 1, 0
  {
    hide GoodPrinter, Inverse, Closed, FieldsText, ReadMembers, SortedKeys, ReadValue;
    var keys := SortedKeys(v.fields.Keys);
    var fields, t := FieldsText(v, keys, 0, num), Serialize(v, num) + rest;
    Regroup("{", fields, "}", rest);
    assert t == "{" + (fields + ("}" + rest));
    hide Serialize;
    assert t[0] == '{' && t[1..] == fields + ("}" + rest);
    FieldsLead(v, keys, 0, rest, num);
    BracketReads(t, parse);
    if keys == [] {
      NoMoreFields(v, keys, num);
      assert fields + ("}" + rest) == "}" + rest && t[1..][1..] == rest;
      assert v.fields == map[];
    } else {
      MembersRead(v, keys, 0, rest, num, parse);
      AllMembers(v.fields, keys);
    }
  }

  lemma AllMembers(fields: map<string, JValue>, keys: seq<string>)
    requires forall k :: k in keys <==> k in fields
    ensures Members(fields, keys, 0) == fields
  {
    assert keys[0..] == keys;
  }

  lemma NoMoreFields(v: JValue, keys: seq<string>, num: Printer)
    requires v.Obj? && forall k :: k in keys ==> k in v.fields
    ensures FieldsText(v, keys, |keys|, num) == ""
  {
  }

  /** The rest of an object begins with its closing brace, with a comma, or with its first key. */
  lemma FieldsLead(v: JValue, keys: seq<string>, i: nat, s: string, num: Printer)
    requires v.Obj? && i <= |keys| && forall k :: k in keys ==> k in v.fields
    ensures var text := FieldsText(v, keys, i, num) + ("}" + s);
      text != "" && !Space(text[0]) && (text[0] == '}' <==> i == |keys|) && (i > 0 ==> Closed(text))
    ensures i < |keys| ==>
      FieldsText(v, keys, i, num) + ("}" + s)
      == Comma(i) + (Quoted(keys[i])
        + (":" + (Serialize(v.fields[keys[i]], num) + (FieldsText(v, keys, i + 1, num) + ("}" + s)))))
  {
    hide Serialize, EscapeString;
    if i < |keys| {
      RegroupField(Comma(i), Quoted(keys[i]), ":", Serialize(v.fields[keys[i]], num), FieldsText(v, keys, i + 1, num),
                   "}" + s);
    }
  }

  /** The members for the keys from index `i` on. */
  function Members(fields: map<string, JValue>, keys: seq<string>, i: nat): map<string, JValue>
    requires i <= |keys| && forall k :: k in keys ==> k in fields
  {
    map k | k in keys[i..] :: fields[k]
  }

  lemma {:induction false} MembersRead(v: JValue, keys: seq<string>, i: nat, rest: string, num: Printer, parse: Parser)
    requires GoodPrinter(num) && Inverse(parse, num) && v.Obj? && i < |keys| && forall k :: k in keys ==> k in v.fields
    ensures ReadMembers((FieldsText(v, keys, i, num) + ("}" + rest))[|Comma(i)|..], parse)
      == Some((Members(v.fields, keys, i), rest))
    decreases v, 0, |keys| - i
  {
    hide Serialize, GoodPrinter, Inverse, FieldsText, ReadValue, ReadName, Quoted;
    var text, after := FieldsText(v, keys, i, num) + ("}" + rest), FieldsText(v, keys, i + 1, num) + ("}" + rest);
    var value := Serialize(v.fields[keys[i]], num) + after;
    FieldsLead(v, keys, i, rest, num);
    FieldsLead(v, keys, i + 1, rest, num);
    assert text[|Comma(i)|..] == Quoted(keys[i]) + (":" + value);
    NameReads(keys[i], value);
    ReadsBack(v.fields[keys[i]], after, num, parse);
    MembersFrom(v.fields, keys, i);
    if i + 1 == |keys| {
      NoMoreFields(v, keys, num);
      assert after == "}" + rest && after[1..] == rest;
      assert Members(v.fields, keys, i) == map[keys[i] := v.fields[keys[i]]];
    } else {
      MembersRead(v, keys, i + 1, rest, num, parse);
    }
  }

  lemma MembersFrom(fields: map<string, JValue>, keys: seq<string>, i: nat)
    requires i < |keys| && forall k :: k in keys ==> k in fields
    ensures Members(fields, keys, i) ==
      map[keys[i] := fields[keys[i]]] + (if i + 1 == |keys| then map[] else Members(fields, keys, i + 1))
  {
    assert keys[i..] == [keys[i]] + keys[i + 1..];
  }

  // ---- The text of a value determines it ---------------------------------

  /** Every printer that tells numbers apart has a parser. */
  ghost function ParserOf(num: Printer): Parser {
    t => if exists n: nat :: num(n) == t then var n: nat :| num(n) == t; Some(n) else None
  }

  /** Two values that read alike up to what closes them are the same value, closed alike. */
  lemma SerializeEnds(u: JValue, v: JValue, s: string, t: string, num: Printer)
    requires GoodPrinter(num) && Closed(s) && Closed(t) && Serialize(u, num) + s == Serialize(v, num) + t
    ensures u == v && s == t
  {
    assert Inverse(ParserOf(num), num);
    hide Serialize, ReadValue;
    ReadsBack(u, s, num, ParserOf(num));
    ReadsBack(v, t, num, ParserOf(num));
  }

  /** The serializer is injective on all nested values. */
  lemma SerializeInjective(u: JValue, v: JValue, num: Printer)
    requires GoodPrinter(num)
    ensures Serialize(u, num) == Serialize(v, num) <==> u == v
  {
    if Serialize(u, num) == Serialize(v, num) {
      assert Serialize(u, num) + "" == Serialize(v, num) + "";
      SerializeEnds(u, v, "", "", num);
    }
  }
}
