/** JSON text as the client's browser reads and writes it: `JSON.parse`
    accepts any value with white space between tokens, members in any order
    and every standard escape, and folds a repeated member name into one
    property; `JSON.stringify` writes a value back without white space. The
    stored user record is kept in this form. */
module JsonText {
  import opened Basics
  import opened Props

  /** A value as `JSON.parse` builds it. A number keeps the literal it was
      read from; an object keeps its properties in insertion order. */
  datatype Value =
    | Null
    | Bool(b: bool)
    | Num(literal: string)
    | Str(s: string)
    | Arr(items: seq<Value>)
    | Obj(members: seq<(string, Value)>)

  /** The characters that may appear in a number literal. */
  predicate IsNumberChar(c: char) {
    IsDigit(c) || c == '-' || c == '+' || c == '.' || c == 'e' || c == 'E'
  }

  /** The length of the run of decimal digits at the front of `s`. */
  function DigitRun(s: string): (n: nat)
    ensures n <= |s|
    ensures forall i :: 0 <= i < n ==> IsDigit(s[i])
  {
    if s != [] && IsDigit(s[0]) then 1 + DigitRun(s[1..]) else 0
  }

  /** `e` or `E`, an optional sign, and at least one digit; or nothing. */
  predicate ValidExponent(s: string) {
    s == [] ||
    ((s[0] == 'e' || s[0] == 'E') &&
     var t := if |s| > 1 && (s[1] == '+' || s[1] == '-') then s[2..] else s[1..];
     t != [] && AllDigits(t))
  }

  /** A `.` with at least one digit, or nothing, then the exponent. */
  predicate ValidFraction(s: string) {
    if s != [] && s[0] == '.' then
      var n := DigitRun(s[1..]);
      n > 0 && ValidExponent(s[1 + n..])
    else ValidExponent(s)
  }

  /** The integer part: `0` or a digit run without a leading zero. */
  predicate ValidUnsigned(s: string) {
    var n := DigitRun(s);
    n > 0 && (s[0] == '0' ==> n == 1) && ValidFraction(s[n..])
  }

  /** A number literal of the JSON grammar. */
  predicate ValidNumber(s: string) {
    if s != [] && s[0] == '-' then ValidUnsigned(s[1..]) else ValidUnsigned(s)
  }

  /** A valid literal is not empty, starts with a minus sign or a digit and
      holds nothing but number characters. */
  lemma ValidNumberChars(s: string)
    requires ValidNumber(s)
    ensures s != [] && (s[0] == '-' || IsDigit(s[0]))
    ensures forall i :: 0 <= i < |s| ==> IsNumberChar(s[i])
  {
    var u := if s[0] == '-' then s[1..] else s;
    var n := DigitRun(u);
    assert forall i :: 0 <= i < n ==> IsNumberChar(u[i]);
    var f := u[n..];
    assert forall i :: 0 <= i < |f| ==> IsNumberChar(f[i]) by {
      FractionChars(f);
    }
    forall i | 0 <= i < |u|
      ensures IsNumberChar(u[i])
    {
      if i >= n {
        assert u[i] == f[i - n];
      }
    }
    forall i | 0 <= i < |s|
      ensures IsNumberChar(s[i])
    {
      if s[0] == '-' && i > 0 {
        assert s[i] == u[i - 1];
      }
    }
  }

  lemma FractionChars(f: string)
    requires ValidFraction(f)
    ensures forall i :: 0 <= i < |f| ==> IsNumberChar(f[i])
  {
    if f != [] && f[0] == '.' {
      var n := DigitRun(f[1..]);
      var e := f[1 + n..];
      ExponentChars(e);
      forall i | 0 <= i < |f|
        ensures IsNumberChar(f[i])
      {
        if 1 <= i < 1 + n {
          assert f[i] == f[1..][i - 1];
        } else if i >= 1 + n {
          assert f[i] == e[i - 1 - n];
        }
      }
    } else {
      ExponentChars(f);
    }
  }

  lemma ExponentChars(e: string)
    requires ValidExponent(e)
    ensures forall i :: 0 <= i < |e| ==> IsNumberChar(e[i])
  {
    if e != [] {
      var k := if |e| > 1 && (e[1] == '+' || e[1] == '-') then 2 else 1;
      forall i | 0 <= i < |e|
        ensures IsNumberChar(e[i])
      {
        if i >= k {
          assert e[i] == e[k..][i - k];
        }
      }
    }
  }

  /** The part of a literal before its exponent. */
  function Mantissa(l: string): (m: string)
    ensures |m| <= |l|
  {
    if l == [] || l[0] == 'e' || l[0] == 'E' then [] else [l[0]] + Mantissa(l[1..])
  }

  /** The literal stands for zero: every digit before the exponent is `0`. */
  predicate IsZeroLiteral(l: string) {
    forall c :: c in Mantissa(l) && IsDigit(c) ==> c == '0'
  }

  /** Every value `JSON.parse` can build: number literals follow the grammar
      and no object repeats a property name. */
  predicate WF(v: Value)
    decreases v
  {
    match v
    case Num(l) => ValidNumber(l)
    case Arr(items) => forall i :: 0 <= i < |items| ==> WF(items[i])
    case Obj(ms) => UniqueKeys(ms) && forall i :: 0 <= i < |ms| ==> WF(ms[i].1)
    case _ => true
  }

  /** The properties of a well-formed object. */
  predicate WFMembers(ms: seq<(string, Value)>) {
    UniqueKeys(ms) && forall i :: 0 <= i < |ms| ==> WF(ms[i].1)
  }

  /** The values JSON can express. */
  type JsonValue = v: Value | WF(v) witness Null

  /** JavaScript truthiness of a parsed value: `null`, `false`, `0` and the
      empty string are falsy; every array and object is truthy. */
  predicate Truthy(v: Value) {
    match v
    case Null => false
    case Bool(b) => b
    case Num(l) => !IsZeroLiteral(l)
    case Str(s) => s != ""
    case Arr(_) => true
    case Obj(_) => true
  }

  /** `v.k` on a parsed value: an object's own property; no other value
      carries a property under the names the client reads. */
  function Prop(v: Value, k: string): (r: Option<Value>)
    ensures r.Some? ==> v.Obj? && Has(v.members, k)
  {
    if v.Obj? then Get(v.members, k) else None
  }

  /** Assigning a property keeps an object well formed. */
  lemma PutWF(ms: seq<(string, Value)>, k: string, v: Value)
    requires WFMembers(ms) && WF(v)
    ensures WFMembers(Put(ms, k, v))
  {
    PutUnique(ms, k, v);
    var r := Put(ms, k, v);
    forall i | 0 <= i < |r|
      ensures WF(r[i].1)
    {
      assert r[i] in r;
      PutMembers(ms, k, v, r[i]);
      if r[i] != (k, v) {
        var j :| 0 <= j < |ms| && ms[j] == r[i];
      }
    }
  }

  /** Every property of a well-formed object is well formed. */
  lemma GetWF(ms: seq<(string, Value)>, k: string)
    requires WFMembers(ms)
    ensures Get(ms, k).Some? ==> WF(Get(ms, k).value)
  {
    GetIn(ms, k);
    if Get(ms, k).Some? {
      var i :| 0 <= i < |ms| && ms[i] == (k, Get(ms, k).value);
    }
  }

  // ---------------------------------------------------------------------
  // Writing

  /** A hexadecimal digit as `JSON.stringify` writes it: lower case. */
  function HexChar(d: nat): (c: char)
    requires d < 16
  {
    if d < 10 then (d + '0' as int) as char else (d - 10 + 'a' as int) as char
  }

  /** One character of a string literal: quote, backslash and the control
      characters are escaped, the five common ones by letter, the rest as
      `\u00xx`. */
  function EscapeChar(c: char): (r: string)
    ensures r != []
  {
    if c == '"' then ['\\', '"']
    else if c == '\\' then ['\\', '\\']
    else if c as int == 0x08 then ['\\', 'b']
    else if c as int == 0x09 then ['\\', 't']
    else if c as int == 0x0A then ['\\', 'n']
    else if c as int == 0x0C then ['\\', 'f']
    else if c as int == 0x0D then ['\\', 'r']
    else if c as int < 0x20 then ['\\', 'u', '0', '0', HexChar(c as int / 16), HexChar(c as int % 16)]
    else [c]
  }

  function Escape(s: string): string {
    if s == [] then [] else EscapeChar(s[0]) + Escape(s[1..])
  }

  /** A JSON string literal. */
  function Quote(s: string): string {
    "\"" + Escape(s) + "\""
  }

  /** `JSON.stringify(v)`. */
  function Stringify(v: Value): (r: string)
    decreases v, 1
  {
    match v
    case Null => "null"
    case Bool(b) => if b then "true" else "false"
    case Num(l) => l
    case Str(s) => Quote(s)
    case Arr(items) => "[" + ItemsText(items) + "]"
    case Obj(ms) => "{" + MembersText(ms) + "}"
  }

  /** The elements of an array, separated by commas. */
  function ItemsText(items: seq<Value>): string
    decreases items, 0
  {
    if items == [] then ""
    else Stringify(items[0]) + (if |items| == 1 then "" else "," + ItemsText(items[1..]))
  }

  /** The properties of an object, separated by commas. */
  function MembersText(ms: seq<(string, Value)>): string
    decreases ms, 0
  {
    if ms == [] then ""
    else MemberText(ms[0]) + (if |ms| == 1 then "" else "," + MembersText(ms[1..]))
  }

  /** One property, `"name":value`. */
  function MemberText(m: (string, Value)): string
    decreases m, 0
  {
    Quote(m.0) + ":" + Stringify(m.1)
  }

  // ---------------------------------------------------------------------
  // Reading

  /** The four white-space characters of the JSON grammar. */
  predicate IsWs(c: char) {
    c == ' ' || c == '\t' || c == '\n' || c == '\r'
  }

  function SkipWs(t: string): (r: string)
    ensures |r| <= |t|
    ensures r != [] ==> !IsWs(r[0])
  {
    if t != [] && IsWs(t[0]) then SkipWs(t[1..]) else t
  }

  /** Consumes the literal `lit` at the front of `t`. */
  function Lit(lit: string, t: string): (r: Option<string>)
    ensures r.Some? ==> |r.value| == |t| - |lit| && t == lit + r.value
  {
    if |lit| <= |t| && t[..|lit|] == lit then
      assert t == lit + t[|lit|..];
      Some(t[|lit|..])
    else None
  }

  lemma LitPrefix(lit: string, rest: string)
    ensures Lit(lit, lit + rest) == Some(rest)
  {
    assert (lit + rest)[..|lit|] == lit;
  }

  function HexValue(c: char): Option<nat> {
    if '0' <= c <= '9' then Some(c as int - '0' as int)
    else if 'a' <= c <= 'f' then Some(c as int - 'a' as int + 10)
    else if 'A' <= c <= 'F' then Some(c as int - 'A' as int + 10)
    else None
  }

  /** Four hexadecimal digits: one UTF-16 code unit. */
  function ParseHex4(t: string): (r: Option<(int, string)>)
    ensures r.Some? ==> 0 <= r.value.0 < 0x10000 && |r.value.1| == |t| - 4
  {
    if |t| < 4 then None
    else
      var a :- HexValue(t[0]);
      var b :- HexValue(t[1]);
      var c :- HexValue(t[2]);
      var d :- HexValue(t[3]);
      Some((((a * 16 + b) * 16 + c) * 16 + d, t[4..]))
  }

  /** The character a backslash escape stands for (the text after the
      backslash), and what follows the escape. A `\u` escape of a high
      surrogate joins the `\u` escape of a low surrogate right after it into
      one character. */
  function ParseEscape(t: string): (r: Option<(char, string)>)
    ensures r.Some? ==> |r.value.1| < |t|
  {
    if t == [] then None
    else if t[0] == '"' || t[0] == '\\' || t[0] == '/' then Some((t[0], t[1..]))
    else if t[0] == 'b' then Some((0x08 as char, t[1..]))
    else if t[0] == 't' then Some((0x09 as char, t[1..]))
    else if t[0] == 'n' then Some((0x0A as char, t[1..]))
    else if t[0] == 'f' then Some((0x0C as char, t[1..]))
    else if t[0] == 'r' then Some((0x0D as char, t[1..]))
    else if t[0] == 'u' then
      var h :- ParseHex4(t[1..]);
      if 0xD800 <= h.0 < 0xDC00 then
        var after :- Lit("\\u", h.1);
        var l :- ParseHex4(after);
        if 0xDC00 <= l.0 < 0xE000 then
          Some(((0x10000 + (h.0 - 0xD800) * 0x400 + (l.0 - 0xDC00)) as char, l.1))
        else None
      else if 0xDC00 <= h.0 < 0xE000 then None
      else Some((h.0 as char, h.1))
    else None
  }

  /** The body of a string literal up to its closing quote: the text it
      stands for and what follows the quote. A raw control character ends
      the parse with an error. */
  function ParseChars(t: string): (r: Option<(string, string)>)
    ensures r.Some? ==> |r.value.1| < |t|
    decreases |t|
  {
    if t == [] then None
    else if t[0] == '"' then Some(([], t[1..]))
    else if t[0] as int < 0x20 then None
    else if t[0] == '\\' then
      var e :- ParseEscape(t[1..]);
      var p :- ParseChars(e.1);
      Some(([e.0] + p.0, p.1))
    else
      var p :- ParseChars(t[1..]);
      Some(([t[0]] + p.0, p.1))
  }

  /** The length of the run of number characters at the front of `t`. */
  function NumberSpan(t: string): (n: nat)
    ensures n <= |t|
    ensures forall i :: 0 <= i < n ==> IsNumberChar(t[i])
    ensures n < |t| ==> !IsNumberChar(t[n])
  {
    if t != [] && IsNumberChar(t[0]) then 1 + NumberSpan(t[1..]) else 0
  }

  /** One value after optional white space, and the text after it. */
  function ParseValue(t: string): (r: Option<(Value, string)>)
    ensures r.Some? ==> |r.value.1| < |t| && WF(r.value.0)
    decreases |t|, 0
  {
    var s := SkipWs(t);
    if s == [] then None
    else if s[0] == '{' then ParseObject(s[1..])
    else if s[0] == '[' then ParseArray(s[1..])
    else if s[0] == '"' then
      var p :- ParseChars(s[1..]);
      Some((Str(p.0), p.1))
    else if s[0] == 'n' then
      var rest :- Lit("null", s);
      Some((Null, rest))
    else if s[0] == 't' then
      var rest :- Lit("true", s);
      Some((Bool(true), rest))
    else if s[0] == 'f' then
      var rest :- Lit("false", s);
      Some((Bool(false), rest))
    else
      var n := NumberSpan(s);
      if n > 0 && ValidNumber(s[..n]) then Some((Num(s[..n]), s[n..])) else None
  }

  /** An array after its `[`. */
  function ParseArray(t: string): (r: Option<(Value, string)>)
    ensures r.Some? ==> |r.value.1| < |t| && WF(r.value.0)
    decreases |t|, 2
  {
    var s := SkipWs(t);
    if s != [] && s[0] == ']' then Some((Arr([]), s[1..]))
    else ParseElements(s, [])
  }

  /** The elements of an array from the next one on; `acc` holds those read
      so far. */
  function ParseElements(t: string, acc: seq<Value>): (r: Option<(Value, string)>)
    requires forall i :: 0 <= i < |acc| ==> WF(acc[i])
    ensures r.Some? ==> |r.value.1| < |t| && WF(r.value.0)
    decreases |t|, 1
  {
    var v :- ParseValue(t);
    var s := SkipWs(v.1);
    if s == [] then None
    else if s[0] == ',' then ParseElements(s[1..], acc + [v.0])
    else if s[0] == ']' then Some((Arr(acc + [v.0]), s[1..]))
    else None
  }

  /** An object after its `{`. */
  function ParseObject(t: string): (r: Option<(Value, string)>)
    ensures r.Some? ==> |r.value.1| < |t| && WF(r.value.0)
    decreases |t|, 2
  {
    var s := SkipWs(t);
    if s != [] && s[0] == '}' then Some((Obj([]), s[1..]))
    else ParseMembers(s, [])
  }

  /** The properties of an object from the next one on. Each is assigned
      onto those read so far, so a repeated name keeps its first place and
      takes its last value. */
  function ParseMembers(t: string, acc: seq<(string, Value)>): (r: Option<(Value, string)>)
    requires WFMembers(acc)
    ensures r.Some? ==> |r.value.1| < |t| && WF(r.value.0)
    decreases |t|, 1
  {
    var s := SkipWs(t);
    if s == [] || s[0] != '"' then None
    else
      var k :- ParseChars(s[1..]);
      var s2 := SkipWs(k.1);
      if s2 == [] || s2[0] != ':' then None
      else
        var v :- ParseValue(s2[1..]);
        PutWF(acc, k.0, v.0);
        var acc' := Put(acc, k.0, v.0);
        var s3 := SkipWs(v.1);
        if s3 == [] then None
        else if s3[0] == ',' then ParseMembers(s3[1..], acc')
        else if s3[0] == '}' then Some((Obj(acc'), s3[1..]))
        else None
  }

  /** `JSON.parse(text)`: one value, with nothing but white space around it;
      `None` where it throws a `SyntaxError`. */
  function Parse(text: string): (r: Option<JsonValue>)
  {
    var p :- ParseValue(text);
    if SkipWs(p.1) == [] then Some(p.0) else None
  }

  // ---------------------------------------------------------------------
  // Reading back what was written

  /** Text that cannot continue a number literal. */
  predicate Delimits(rest: string) {
    rest == [] || !IsNumberChar(rest[0])
  }

  /** White space is skipped only where there is some. */
  lemma SkipNoWs(t: string)
    requires t != [] && !IsWs(t[0])
    ensures SkipWs(t) == t
  {
  }

  /** A literal followed by a delimiter is read up to the delimiter. */
  lemma NumberSpanOf(l: string, rest: string)
    requires ValidNumber(l) && Delimits(rest)
    ensures NumberSpan(l + rest) == |l|
  {
    ValidNumberChars(l);
    var t := l + rest;
    assert forall i :: 0 <= i < |l| ==> t[i] == l[i];
    assert rest != [] ==> t[|l|] == rest[0];
  }

  /** Every character reads back from its escaped form. */
  lemma ParseEscapedChar(c: char, u: string, body: string, rest: string)
    requires ParseChars(u) == Some((body, rest))
    ensures ParseChars(EscapeChar(c) + u) == Some(([c] + body, rest))
  {
    var t := EscapeChar(c) + u;
    if |EscapeChar(c)| == 1 {
      assert t[0] == c && t[1..] == u;
    } else if |EscapeChar(c)| == 2 {
      assert t[0] == '\\' && t[1..] == [EscapeChar(c)[1]] + u;
      assert ParseEscape(t[1..]) == Some((c, u));
    } else {
      ParseControlEscape(c, u);
      assert t[0] == '\\' && t[1..] == EscapeChar(c)[1..] + u;
    }
  }

  /** A control character written as `\u00xx`. */
  lemma ParseControlEscape(c: char, u: string)
    requires |EscapeChar(c)| > 2
    ensures ParseEscape(EscapeChar(c)[1..] + u) == Some((c, u))
  {
    var n := c as int;
    var t := EscapeChar(c)[1..] + u;
    assert t == ['u', '0', '0', HexChar(n / 16), HexChar(n % 16)] + u;
    assert t[1..] == ['0', '0', HexChar(n / 16), HexChar(n % 16)] + u;
    assert HexValue(HexChar(n / 16)) == Some(n / 16);
    assert HexValue(HexChar(n % 16)) == Some(n % 16);
    assert t[1..][4..] == u;
    assert ParseHex4(t[1..]) == Some((n, u));
  }

  lemma EscapeThen(s: string, rest: string)
    requires s != []
    ensures Escape(s) + rest == EscapeChar(s[0]) + (Escape(s[1..]) + rest)
  {
  }

  /** The body of a written string reads back as the string. */
  lemma {:induction false} ParseEscaped(s: string, rest: string)
    ensures ParseChars(Escape(s) + ("\"" + rest)) == Some((s, rest))
  {
    if s == [] {
      assert Escape(s) + ("\"" + rest) == "\"" + rest;
    } else {
      ParseEscaped(s[1..], rest);
      EscapeThen(s, "\"" + rest);
      ParseEscapedChar(s[0], Escape(s[1..]) + ("\"" + rest), s[1..], rest);
      assert [s[0]] + s[1..] == s;
    }
  }

  /** The first character of every written value starts a value. */
  lemma StringifyStart(v: Value)
    requires WF(v)
    ensures Stringify(v) != []
    ensures var c := Stringify(v)[0];
      !IsWs(c) && (v.Num? <==> (c == '-' || IsDigit(c)))
      && (v.Obj? <==> c == '{') && (v.Arr? <==> c == '[') && (v.Str? <==> c == '"')
      && (v.Null? <==> c == 'n') && (v.Bool? && v.b <==> c == 't') && (v.Bool? && !v.b <==> c == 'f')
  {
    if v.Num? {
      ValidNumberChars(v.literal);
    }
  }

  /** A written value reads back as itself and leaves the text after it,
      whatever follows, as long as a number is not run on. */
  lemma {:induction false} ParseStringified(v: Value, rest: string)
    requires WF(v) && Delimits(rest)
    ensures ParseValue(Stringify(v) + rest) == Some((v, rest))
    decreases v, 1
  {
    StringifyStart(v);
    SkipNoWs(Stringify(v) + rest);
    match v
    case Null => LitPrefix("null", rest);
    case Bool(b) => if b { LitPrefix("true", rest); } else { LitPrefix("false", rest); }
    case Num(l) => ParseNumberLiteral(l, rest);
    case Str(s) => ParseQuoted(s, rest);
    case Arr(items) =>
      ParseArrayStringified(items, rest);
      OpenThen('[', ItemsText(items), ']', rest);
    case Obj(ms) =>
      ParseObjectStringified(ms, rest);
      OpenThen('{', MembersText(ms), '}', rest);
  }

  lemma OpenThen(c: char, body: string, d: char, rest: string)
    ensures ([c] + body + [d] + rest)[1..] == body + [d] + rest
  {
  }

  lemma ParseNumberLiteral(l: string, rest: string)
    requires ValidNumber(l) && Delimits(rest)
    ensures var t := l + rest;
      NumberSpan(t) == |l| && t[..|l|] == l && t[|l|..] == rest
  {
    NumberSpanOf(l, rest);
  }

  /** A string literal reads back as the string. */
  lemma ParseQuoted(s: string, rest: string)
    ensures (Quote(s) + rest)[1..] == Escape(s) + ("\"" + rest)
    ensures ParseChars((Quote(s) + rest)[1..]) == Some((s, rest))
  {
    QuoteThen(s, rest);
    ParseEscaped(s, rest);
  }

  lemma QuoteThen(s: string, rest: string)
    ensures (Quote(s) + rest)[1..] == Escape(s) + ("\"" + rest)
  {
    assert Quote(s) + rest == "\"" + (Escape(s) + ("\"" + rest));
  }

  lemma {:induction false} ParseArrayStringified(items: seq<Value>, rest: string)
    requires forall i :: 0 <= i < |items| ==> WF(items[i])
    ensures ParseArray(ItemsText(items) + "]" + rest) == Some((Arr(items), rest))
    decreases items, 2
  {
    if items == [] {
      assert ItemsText(items) + "]" + rest == "]" + rest;
    } else {
      ItemsStart(items, rest);
      ParseItemsStringified(items, [], rest);
      assert [] + items == items;
    }
  }

  /** A written element list does not start with `]` or white space. */
  lemma ItemsStart(items: seq<Value>, rest: string)
    requires items != [] && WF(items[0])
    ensures var t := ItemsText(items) + "]" + rest;
      SkipWs(t) == t && t[0] != ']'
  {
    StringifyStart(items[0]);
    var t := ItemsText(items) + "]" + rest;
    assert t[0] == Stringify(items[0])[0];
  }

  lemma {:induction false} ParseItemsStringified(items: seq<Value>, acc: seq<Value>, rest: string)
    requires items != []
    requires forall i :: 0 <= i < |items| ==> WF(items[i])
    requires forall i :: 0 <= i < |acc| ==> WF(acc[i])
    ensures ParseElements(ItemsText(items) + "]" + rest, acc) == Some((Arr(acc + items), rest))
    decreases items, 1
  {
    var after := if |items| == 1 then "]" + rest else "," + (ItemsText(items[1..]) + "]" + rest);
    ItemsThen(items, rest);
    ParseStringified(items[0], after);
    ParseElementsStep(Stringify(items[0]) + after, acc, items[0], after);
    AppendFirst(acc, items);
    if |items| > 1 {
      ParseItemsStringified(items[1..], acc + [items[0]], rest);
    }
  }

  /** One step of the element loop, read off the pieces of the text. */
  lemma ParseElementsStep(t: string, acc: seq<Value>, v: Value, after: string)
    requires forall i :: 0 <= i < |acc| ==> WF(acc[i])
    requires ParseValue(t) == Some((v, after))
    requires after != [] && (after[0] == ',' || after[0] == ']')
    ensures after[0] == ',' ==> ParseElements(t, acc) == ParseElements(after[1..], acc + [v])
    ensures after[0] == ']' ==> ParseElements(t, acc) == Some((Arr(acc + [v]), after[1..]))
  {
    SkipNoWs(after);
  }

  lemma AppendFirst<T>(acc: seq<T>, items: seq<T>)
    requires items != []
    ensures acc + [items[0]] + items[1..] == acc + items
    ensures |items| == 1 ==> acc + [items[0]] == acc + items
  {
    assert items == [items[0]] + items[1..];
  }

  lemma ItemsThen(items: seq<Value>, rest: string)
    requires items != []
    ensures ItemsText(items) + "]" + rest == Stringify(items[0]) +
      (if |items| == 1 then "]" + rest else "," + (ItemsText(items[1..]) + "]" + rest))
  {
  }

  lemma {:induction false} ParseObjectStringified(ms: seq<(string, Value)>, rest: string)
    requires WFMembers(ms)
    ensures ParseObject(MembersText(ms) + "}" + rest) == Some((Obj(ms), rest))
    decreases ms, 2
  {
    if ms == [] {
      assert MembersText(ms) + "}" + rest == "}" + rest;
    } else {
      MembersStart(ms, rest);
      SkipNoWs(MembersText(ms) + "}" + rest);
      ParseMembersStringified(ms, [], rest);
      assert [] + ms == ms;
    }
  }

  lemma MembersStart(ms: seq<(string, Value)>, rest: string)
    requires ms != []
    ensures var t := MembersText(ms) + "}" + rest;
      t != [] && t[0] == '"'
  {
    MembersThen(ms, rest);
    MemberThen(ms[0], if |ms| == 1 then "}" + rest else "," + (MembersText(ms[1..]) + "}" + rest));
  }

  lemma MembersThen(ms: seq<(string, Value)>, rest: string)
    requires ms != []
    ensures MembersText(ms) + "}" + rest == MemberText(ms[0]) +
      (if |ms| == 1 then "}" + rest else "," + (MembersText(ms[1..]) + "}" + rest))
  {
    var h := MemberText(ms[0]);
    if |ms| == 1 {
      assert MembersText(ms) == h;
      AppendAssoc(h, "}", rest);
    } else {
      assert MembersText(ms) == h + ("," + MembersText(ms[1..]));
      Regroup(h, ",", MembersText(ms[1..]), "}", rest);
    }
  }

  lemma AppendAssoc(a: string, b: string, c: string)
    ensures a + b + c == a + (b + c)
  {
  }

  lemma Regroup(h: string, c: string, m: string, d: string, rest: string)
    ensures h + (c + m) + d + rest == h + (c + (m + d + rest))
  {
  }

  lemma MemberThen(m: (string, Value), after: string)
    ensures MemberText(m) + after == "\"" + (Escape(m.0) + ("\"" + (":" + (Stringify(m.1) + after))))
  {
  }

  /** A name new to the object is appended by the assignment. */
  lemma PutNew(acc: seq<(string, Value)>, ms: seq<(string, Value)>)
    requires ms != [] && UniqueKeys(acc + ms)
    ensures Put(acc, ms[0].0, ms[0].1) == acc + [ms[0]]
    ensures acc + [ms[0]] + ms[1..] == acc + ms
    ensures |ms| == 1 ==> acc + [ms[0]] == acc + ms
    ensures UniqueKeys(acc + [ms[0]] + ms[1..])
  {
    HasIff(acc, ms[0].0);
    assert forall i :: 0 <= i < |acc| ==> (acc + ms)[i] == acc[i];
    assert (acc + ms)[|acc|] == ms[0];
    assert acc + [ms[0]] + ms[1..] == acc + ms;
  }

  /** One property, written, reads back as its name and value. */
  lemma ParseMemberStringified(m: (string, Value), after: string)
    requires WF(m.1) && Delimits(after)
    ensures var t := MemberText(m) + after;
      && t != [] && t[0] == '"'
      && ParseChars(t[1..]) == Some((m.0, ":" + (Stringify(m.1) + after)))
      && ParseValue((":" + (Stringify(m.1) + after))[1..]) == Some((m.1, after))
  {
    MemberThen(m, after);
    ParseEscaped(m.0, ":" + (Stringify(m.1) + after));
    ParseStringified(m.1, after);
  }

  /** One step of the property loop, read off the pieces of the text. */
  lemma ParseMembersStep(t: string, acc: seq<(string, Value)>, k: string, kr: string, v: Value, after: string)
    requires WFMembers(acc)
    requires t != [] && t[0] == '"' && ParseChars(t[1..]) == Some((k, kr))
    requires kr != [] && kr[0] == ':' && ParseValue(kr[1..]) == Some((v, after))
    requires after != [] && (after[0] == ',' || after[0] == '}')
    ensures WFMembers(Put(acc, k, v))
    ensures after[0] == ',' ==> ParseMembers(t, acc) == ParseMembers(after[1..], Put(acc, k, v))
    ensures after[0] == '}' ==> ParseMembers(t, acc) == Some((Obj(Put(acc, k, v)), after[1..]))
  {
    SkipNoWs(t);
    SkipNoWs(kr);
    SkipNoWs(after);
    PutWF(acc, k, v);
  }

  lemma {:induction false} ParseMembersStringified(ms: seq<(string, Value)>, acc: seq<(string, Value)>, rest: string)
    requires ms != [] && UniqueKeys(acc + ms)
    requires forall i :: 0 <= i < |ms| ==> WF(ms[i].1)
    requires WFMembers(acc)
    ensures ParseMembers(MembersText(ms) + "}" + rest, acc) == Some((Obj(acc + ms), rest))
    decreases ms, 1
  {
    var after := if |ms| == 1 then "}" + rest else "," + (MembersText(ms[1..]) + "}" + rest);
    MembersThen(ms, rest);
    ParseMemberStringified(ms[0], after);
    ParseMembersStep(MemberText(ms[0]) + after, acc, ms[0].0, ":" + (Stringify(ms[0].1) + after), ms[0].1, after);
    PutNew(acc, ms);
    if |ms| > 1 {
      ParseMembersStringified(ms[1..], acc + [ms[0]], rest);
    }
  }

  /** `JSON.parse(JSON.stringify(v))` is `v` for every value JSON can
      express. */
  lemma ParseStringify(v: JsonValue)
    ensures Parse(Stringify(v)) == Some(v)
  {
    ParseStringified(v, []);
    assert Stringify(v) + [] == Stringify(v);
  }

  /** White space only. */
  predicate AllWs(w: string) {
    forall i :: 0 <= i < |w| ==> IsWs(w[i])
  }

  lemma {:induction false} SkipWsPrefix(w: string, t: string)
    requires AllWs(w)
    ensures SkipWs(w + t) == SkipWs(t)
  {
    if w == [] {
      assert w + t == t;
    } else {
      assert (w + t)[0] == w[0];
      assert (w + t)[1..] == w[1..] + t;
      SkipWsPrefix(w[1..], t);
    }
  }

  /** White space may surround the value: the text a person or another
      program stored, spaced out, reads as the same value. */
  lemma ParsePadded(v: JsonValue, before: string, after: string)
    requires AllWs(before) && AllWs(after)
    ensures Parse(before + Stringify(v) + after) == Some(v)
  {
    StringifyStart(v);
    var t := Stringify(v) + after;
    assert before + Stringify(v) + after == before + t;
    SkipWsPrefix(before, t);
    SkipNoWs(t);
    assert ParseValue(before + t) == ParseValue(t);
    ParseStringified(v, after);
    SkipWsPrefix(after, []);
    assert after + [] == after;
  }

  /** Four lower-case hexadecimal digits for a UTF-16 code unit. */
  function Hex4(n: nat): string
    requires n < 0x10000
  {
    [HexChar(n / 16 / 16 / 16), HexChar(n / 16 / 16 % 16), HexChar(n / 16 % 16), HexChar(n % 16)]
  }

  lemma HexCharValue(d: nat)
    requires d < 16
    ensures HexValue(HexChar(d)) == Some(d)
  {
  }

  lemma Hex4Value(n: nat)
    requires n < 0x10000
    ensures ((n / 16 / 16 / 16 * 16 + n / 16 / 16 % 16) * 16 + n / 16 % 16) * 16 + n % 16 == n
  {
    var m1 := n / 16;
    var m2 := m1 / 16;
    assert m2 / 16 * 16 + m2 % 16 == m2;
    assert m2 * 16 + m1 % 16 == m1;
    assert m1 * 16 + n % 16 == n;
  }

  lemma HexDigitsValue(n: nat, u: string)
    requires n < 0x10000
    ensures ParseHex4(Hex4(n) + u) == Some((n, u))
  {
    var t := Hex4(n) + u;
    HexCharValue(n / 16 / 16 / 16);
    HexCharValue(n / 16 / 16 % 16);
    HexCharValue(n / 16 % 16);
    HexCharValue(n % 16);
    Hex4Value(n);
    assert t[4..] == u;
  }

  /** A `\u` escape of a character of the basic multilingual plane reads
      back as that character. */
  lemma ParseUnicodeEscape(c: char, u: string)
    requires c as int < 0x10000
    ensures ParseEscape(['u'] + Hex4(c as int) + u) == Some((c, u))
  {
    var t := ['u'] + Hex4(c as int) + u;
    assert t[1..] == Hex4(c as int) + u;
    HexDigitsValue(c as int, u);
  }

  /** A surrogate pair of `\u` escapes reads back as the one character
      beyond the basic multilingual plane it encodes. */
  lemma ParseSurrogatePair(c: char, u: string)
    requires 0x10000 <= c as int
    ensures var hi := 0xD800 + (c as int - 0x10000) / 0x400;
      var lo := 0xDC00 + (c as int - 0x10000) % 0x400;
      ParseEscape(['u'] + (Hex4(hi) + ("\\u" + (Hex4(lo) + u)))) == Some((c, u))
  {
    var hi := 0xD800 + (c as int - 0x10000) / 0x400;
    var lo := 0xDC00 + (c as int - 0x10000) % 0x400;
    SurrogateHalves(c as int);
    var rest := "\\u" + (Hex4(lo) + u);
    HexDigitsValue(hi, rest);
    LitPrefix("\\u", Hex4(lo) + u);
    HexDigitsValue(lo, u);
    assert (['u'] + (Hex4(hi) + rest))[1..] == Hex4(hi) + rest;
  }

  lemma SurrogateHalves(n: int)
    requires 0x10000 <= n < 0x110000
    ensures 0xD800 <= 0xD800 + (n - 0x10000) / 0x400 < 0xDC00
    ensures 0xDC00 <= 0xDC00 + (n - 0x10000) % 0x400 < 0xE000
    ensures 0x10000 + (n - 0x10000) / 0x400 * 0x400 + (n - 0x10000) % 0x400 == n
  {
  }
}
