/** The part of `JSON.stringify` the assistant needs: rendering the
    conversation context, a flat dictionary of scalar values, as a compact
    object text (no spaces). Strings are quoted with the escapes of the
    ECMAScript `QuoteJSONString` operation; numbers are integers. */
module Json {
  import opened Common

  /** A scalar context value. */
  datatype JsonValue = JNull | JBool(b: bool) | JNumber(n: int) | JString(s: string)

  predicate IsHexDigit(c: char) {
    '0' <= c <= '9' || 'a' <= c <= 'f'
  }

  function HexValue(c: char): (d: nat)
    requires IsHexDigit(c)
    ensures d < 16
  {
    if c <= '9' then c as int - '0' as int else c as int - 'a' as int + 10
  }

  /** A lower-case hexadecimal digit. */
  function HexDigit(d: nat): (c: char)
    requires d < 16
    ensures IsHexDigit(c) && HexValue(c) == d
  {
    if d < 10 then ('0' as int + d) as char else ('a' as int + d - 10) as char
  }

  /** The characters that are written as a two-character escape, and the
      letter that follows the backslash. */
  function ShortEscape(c: char): Option<char> {
    if c == '"' then Some('"')
    else if c == '\\' then Some('\\')
    else if c as int == 0x08 then Some('b')
    else if c as int == 0x09 then Some('t')
    else if c as int == 0x0A then Some('n')
    else if c as int == 0x0C then Some('f')
    else if c as int == 0x0D then Some('r')
    else None
  }

  /** The character a two-character escape stands for. */
  function ShortUnescape(e: char): Option<char> {
    if e == '"' then Some('"')
    else if e == '\\' then Some('\\')
    else if e == 'b' then Some(0x08 as char)
    else if e == 't' then Some(0x09 as char)
    else if e == 'n' then Some(0x0A as char)
    else if e == 'f' then Some(0x0C as char)
    else if e == 'r' then Some(0x0D as char)
    else None
  }

  /** One character inside a quoted string: a short escape, `\u00xx` for
      the remaining control characters, and itself otherwise. */
  function EscapeChar(c: char): (r: string)
    ensures r == [c] <==> (c as int >= 0x20 && c != '"' && c != '\\')
    ensures |r| >= 1 && (r[0] == '\\' <==> r != [c])
  {
    if ShortEscape(c).Some? then ['\\', ShortEscape(c).value]
    else if c as int < 0x20 then ['\\', 'u', '0', '0', HexDigit(c as int / 16), HexDigit(c as int % 16)]
    else [c]
  }

  /** The body of a quoted string. */
  function Escape(s: string): (r: string)
    ensures |r| >= |s|
    ensures (forall k :: 0 <= k < |s| ==> s[k] as int >= 0x20 && s[k] != '"' && s[k] != '\\') ==> r == s
  {
    if s == [] then ""
    else
      assert s == [s[0]] + s[1..];
      EscapeChar(s[0]) + Escape(s[1..])
  }

  /** Put a character in front of the string a read produced. */
  function Cons(c: char, r: Option<(string, string)>): Option<(string, string)> {
    if r.Some? then Some(([c] + r.value.0, r.value.1)) else None
  }

  /** Read the body of a quoted string up to its closing quote: the string
      it stands for and the text after the quote; `None` for an unescaped
      control character, a malformed escape or a missing closing quote. */
  function Unescape(t: string): (r: Option<(string, string)>)
    ensures r.Some? ==> |r.value.1| < |t|
    decreases |t|
  {
    if t == [] then None
    else if t[0] == '"' then Some(("", t[1..]))
    else if t[0] == '\\' then
      if |t| >= 2 && ShortUnescape(t[1]).Some? then
        Cons(ShortUnescape(t[1]).value, Unescape(t[2..]))
      else if |t| >= 6 && t[1] == 'u' && t[2] == '0' && t[3] == '0' && IsHexDigit(t[4]) && IsHexDigit(t[5]) then
        Cons((16 * HexValue(t[4]) + HexValue(t[5])) as char, Unescape(t[6..]))
      else None
    else if t[0] as int < 0x20 then None
    else Cons(t[0], Unescape(t[1..]))
  }

  /** Decoding one escaped character in front of any text. */
  lemma UnescapeChar(c: char, rest: string)
    ensures Unescape(EscapeChar(c) + rest) == Cons(c, Unescape(rest))
  {
    var t := EscapeChar(c) + rest;
    if ShortEscape(c).Some? {
      var e := ShortEscape(c).value;
      assert ShortUnescape(e) == Some(c);
      assert t[0] == '\\' && t[1] == e && t[2..] == rest;
    } else if c as int < 0x20 {
      UnescapeControl(c, rest);
    } else {
      assert t[0] == c && t[1..] == rest;
    }
  }

  /** A control character without a short escape reads back from its
      `\u00xx` form. */
  lemma UnescapeControl(c: char, rest: string)
    requires ShortEscape(c).None? && c as int < 0x20
    ensures Unescape(EscapeChar(c) + rest) == Cons(c, Unescape(rest))
  {
    var n := c as int;
    var hi, lo := HexDigit(n / 16), HexDigit(n % 16);
    assert EscapeChar(c) == ['\\', 'u', '0', '0', hi, lo];
    var t := EscapeChar(c) + rest;
    assert t[..6] == EscapeChar(c) && t[6..] == rest;
    assert ShortUnescape('u').None?;
    assert 16 * HexValue(hi) + HexValue(lo) == n;
  }

  /** Quoting can be undone: the escapes lose nothing, and the read stops
      at the closing quote, whatever follows it. */
  lemma {:induction false} UnescapeEscape(s: string, rest: string)
    ensures Unescape(Escape(s) + "\"" + rest) == Some((s, rest))
  {
    if s == [] {
      assert Escape(s) + "\"" + rest == "\"" + rest;
    } else {
      UnescapeEscape(s[1..], rest);
      assert Escape(s) + "\"" + rest == EscapeChar(s[0]) + (Escape(s[1..]) + "\"" + rest);
      UnescapeChar(s[0], Escape(s[1..]) + "\"" + rest);
      assert s == [s[0]] + s[1..];
    }
  }

  /** A string value or key in double quotes. */
  function Quote(s: string): (r: string)
    ensures |r| >= 2 && r[0] == '"' && r[|r| - 1] == '"'
    ensures Unescape(r[1..]) == Some((s, ""))
  {
    var r := "\"" + Escape(s) + "\"";
    assert r[1..] == Escape(s) + "\"" + "";
    UnescapeEscape(s, "");
    r
  }

  function DigitChar(d: nat): (c: char)
    requires d < 10
    ensures '0' <= c <= '9'
  {
    ('0' as int + d) as char
  }

  /** A natural number in decimal, without leading zeros. */
  function NatText(n: nat): (r: string)
    ensures |r| >= 1
    ensures forall k :: 0 <= k < |r| ==> '0' <= r[k] <= '9'
    ensures |r| > 1 ==> r[0] != '0'
  {
    if n < 10 then [DigitChar(n)]
    else NatText(n / 10) + [DigitChar(n % 10)]
  }

  /** The value of a string of decimal digits. */
  function DigitsValue(s: string): nat
    requires forall k :: 0 <= k < |s| ==> '0' <= s[k] <= '9'
  {
    if s == [] then 0
    else 10 * DigitsValue(s[..|s| - 1]) + (s[|s| - 1] as int - '0' as int)
  }

  /** Reading the decimal text gives the number back. */
  lemma {:induction false} NatTextValue(n: nat)
    ensures DigitsValue(NatText(n)) == n
  {
    if n >= 10 {
      NatTextValue(n / 10);
      var r := NatText(n);
      assert r[..|r| - 1] == NatText(n / 10);
    }
  }

  /** An integer in decimal with a leading '-' when negative. */
  function IntText(n: int): (r: string)
    ensures |r| >= 1
    ensures r[0] == '-' <==> n < 0
    ensures n >= 0 ==> (forall k :: 0 <= k < |r| ==> '0' <= r[k] <= '9') && DigitsValue(r) == n
    ensures n < 0 ==> (forall k :: 1 <= k < |r| ==> '0' <= r[k] <= '9') && DigitsValue(r[1..]) == -n
  {
    NatTextValue(if n < 0 then -n else n);
    if n < 0 then
      var r := "-" + NatText(-n);
      assert r[1..] == NatText(-n);
      r
    else NatText(n)
  }

  function ValueText(v: JsonValue): (r: string)
    ensures |r| >= 1
  {
    match v
    case JNull => "null"
    case JBool(b) => if b then "true" else "false"
    case JNumber(n) => IntText(n)
    case JString(s) => Quote(s)
  }

  /** `"key":value`. */
  function MemberText(m: (string, JsonValue)): string {
    Quote(m.0) + ":" + ValueText(m.1)
  }

  /** The members separated by commas. */
  function MembersText(ms: seq<(string, JsonValue)>): (r: string)
    ensures r == "" <==> ms == []
  {
    if ms == [] then ""
    else if |ms| == 1 then MemberText(ms[0])
    else MemberText(ms[0]) + "," + MembersText(ms[1..])
  }

  /** `JSON.stringify` of an object whose members are `ms`, in order. */
  function ObjectText(ms: seq<(string, JsonValue)>): (r: string)
    ensures |r| >= 2 && r[0] == '{' && r[|r| - 1] == '}'
    ensures |r| == 2 <==> ms == []
  {
    "{" + MembersText(ms) + "}"
  }

  // ---------------------------------------------------------------------
  // Reading the object text back.

  /** Concatenation regroups freely. */
  lemma Associative(x: string, y: string, z: string)
    ensures (x + y) + z == x + (y + z)
  {
  }

  predicate IsDigit(c: char) {
    '0' <= c <= '9'
  }

  /** Text that cannot continue a number: empty or not starting with a digit. */
  predicate EndsNumber(t: string) {
    t == [] || !IsDigit(t[0])
  }

  /** The longest prefix of decimal digits and the text after it. */
  function SpanDigits(t: string): (r: (string, string))
    ensures r.0 + r.1 == t
    ensures forall k :: 0 <= k < |r.0| ==> IsDigit(r.0[k])
  {
    if t != [] && IsDigit(t[0]) then
      var (d, rest) := SpanDigits(t[1..]);
      assert [t[0]] + d + rest == [t[0]] + (d + rest);
      ([t[0]] + d, rest)
    else ("", t)
  }

  /** A run of digits followed by text that cannot continue it is read as
      exactly that run. */
  lemma {:induction false} SpanDigitsOf(d: string, rest: string)
    requires forall k :: 0 <= k < |d| ==> IsDigit(d[k])
    requires EndsNumber(rest)
    ensures SpanDigits(d + rest) == (d, rest)
  {
    if d != [] {
      assert (d + rest)[0] == d[0];
      assert (d + rest)[1..] == d[1..] + rest;
      SpanDigitsOf(d[1..], rest);
      assert [d[0]] + d[1..] == d;
    } else {
      assert d + rest == rest;
    }
  }

  /** At least one digit. */
  function ReadNat(t: string): (r: Option<(nat, string)>)
    ensures r.Some? ==> |r.value.1| < |t|
  {
    var (d, rest) := SpanDigits(t);
    if d == [] then None else Some((DigitsValue(d), rest))
  }

  lemma NatTextReads(n: nat, rest: string)
    requires EndsNumber(rest)
    ensures ReadNat(NatText(n) + rest) == Some((n, rest))
  {
    NatTextValue(n);
    SpanDigitsOf(NatText(n), rest);
  }

  /** An optional '-' and at least one digit. */
  function ReadInt(t: string): (r: Option<(int, string)>)
    ensures r.Some? ==> |r.value.1| < |t|
  {
    if t != [] && t[0] == '-' then
      match ReadNat(t[1..])
      case Some((v, rest)) => Some((-(v as int), rest))
      case None => None
    else
      match ReadNat(t)
      case Some((v, rest)) => Some((v as int, rest))
      case None => None
  }

  /** A negative number's text: '-' and the magnitude. */
  lemma NegativeTextReads(m: nat, rest: string)
    requires EndsNumber(rest)
    ensures ReadInt("-" + (NatText(m) + rest)) == Some((-(m as int), rest))
  {
    NatTextReads(m, rest);
    assert ("-" + (NatText(m) + rest))[1..] == NatText(m) + rest;
  }

  /** A non-negative number's text: the digits alone. */
  lemma NonNegativeTextReads(m: nat, rest: string)
    requires EndsNumber(rest)
    ensures ReadInt(NatText(m) + rest) == Some((m as int, rest))
  {
    NatTextReads(m, rest);
    assert IsDigit(NatText(m)[0]);
  }

  lemma IntTextShape(n: int, rest: string)
    ensures n < 0 ==> IntText(n) + rest == "-" + (NatText(-n) + rest)
    ensures n >= 0 ==> IntText(n) + rest == NatText(n) + rest
  {
  }

  /** An integer's text reads back as the integer. */
  lemma IntTextReads(n: int, rest: string)
    requires EndsNumber(rest)
    ensures ReadInt(IntText(n) + rest) == Some((n, rest))
  {
    IntTextShape(n, rest);
    if n < 0 {
      NegativeTextReads(-n, rest);
    } else {
      NonNegativeTextReads(n, rest);
    }
  }

  /** One scalar value, told apart by its first character. */
  function ReadValue(t: string): (r: Option<(JsonValue, string)>)
    ensures r.Some? ==> |r.value.1| < |t|
  {
    if t == [] then None
    else if t[0] == 'n' then
      if |t| >= 4 && t[..4] == "null" then Some((JNull, t[4..])) else None
    else if t[0] == 't' then
      if |t| >= 4 && t[..4] == "true" then Some((JBool(true), t[4..])) else None
    else if t[0] == 'f' then
      if |t| >= 5 && t[..5] == "false" then Some((JBool(false), t[5..])) else None
    else if t[0] == '"' then
      match Unescape(t[1..])
      case Some((s, rest)) => Some((JString(s), rest))
      case None => None
    else
      match ReadInt(t)
      case Some((n, rest)) => Some((JNumber(n), rest))
      case None => None
  }

  lemma LiteralReads(v: JsonValue, rest: string)
    requires v.JNull? || v.JBool?
    ensures ReadValue(ValueText(v) + rest) == Some((v, rest))
  {
    var t := ValueText(v) + rest;
    if v.JNull? {
      assert t[0] == 'n' && t[..4] == "null" && t[4..] == rest;
    } else if v.b {
      assert t[0] == 't' && t[..4] == "true" && t[4..] == rest;
    } else {
      assert t[0] == 'f' && t[..5] == "false" && t[5..] == rest;
    }
  }

  lemma NumberReads(n: int, rest: string)
    requires EndsNumber(rest)
    ensures ReadValue(IntText(n) + rest) == Some((JNumber(n), rest))
  {
    IntTextReads(n, rest);
    var t := IntText(n) + rest;
    assert t[0] == IntText(n)[0];
  }

  lemma StringReads(s: string, rest: string)
    ensures ReadValue(Quote(s) + rest) == Some((JString(s), rest))
  {
    var t := Quote(s) + rest;
    assert t == "\"" + (Escape(s) + "\"" + rest);
    assert t[1..] == Escape(s) + "\"" + rest;
    UnescapeEscape(s, rest);
  }

  /** A value's text reads back as the value. */
  lemma ValueTextReads(v: JsonValue, rest: string)
    requires EndsNumber(rest)
    ensures ReadValue(ValueText(v) + rest) == Some((v, rest))
  {
    match v
    case JNull => LiteralReads(v, rest);
    case JBool(_) => LiteralReads(v, rest);
    case JNumber(n) => NumberReads(n, rest);
    case JString(s) => StringReads(s, rest);
  }

  /** `"key":value`. */
  function ReadMember(t: string): (r: Option<((string, JsonValue), string)>)
    ensures r.Some? ==> |r.value.1| < |t|
  {
    if t == [] || t[0] != '"' then None
    else
      match Unescape(t[1..])
      case None => None
      case Some((key, rest)) =>
        if rest == [] || rest[0] != ':' then None
        else
          match ReadValue(rest[1..])
          case None => None
          case Some((v, after)) => Some(((key, v), after))
  }

  /** `ReadMember` on a key body that reads back up to a colon, followed by
      a value text that reads back. */
  lemma ReadMemberOf(body: string, m: (string, JsonValue), valueText: string, rest: string)
    requires Unescape(body) == Some((m.0, ":" + valueText))
    requires ReadValue(valueText) == Some((m.1, rest))
    ensures ReadMember("\"" + body) == Some((m, rest))
  {
    assert ("\"" + body)[1..] == body;
    assert (":" + valueText)[1..] == valueText;
  }

  lemma MemberTextReads(m: (string, JsonValue), rest: string)
    requires EndsNumber(rest)
    ensures ReadMember(MemberText(m) + rest) == Some((m, rest))
  {
    var q, e, v := Quote(m.0), Escape(m.0), ValueText(m.1);
    var valueText := v + rest;
    var w := ":" + valueText;
    var body := e + "\"" + w;
    assert q == ("\"" + e) + "\"";
    Associative(q + ":", v, rest);
    Associative(q, ":", valueText);
    Associative("\"" + e, "\"", w);
    Associative("\"", e, "\"" + w);
    Associative(e, "\"", w);
    assert MemberText(m) + rest == "\"" + body;
    UnescapeEscape(m.0, ":" + valueText);
    ValueTextReads(m.1, rest);
    ReadMemberOf(body, m, valueText, rest);
  }

  /** Members separated by commas, up to and including the closing brace. */
  function ReadMembers(t: string): (r: Option<(seq<(string, JsonValue)>, string)>)
    decreases |t|
  {
    match ReadMember(t)
    case None => None
    case Some((m, rest)) =>
      if rest != [] && rest[0] == '}' then Some(([m], rest[1..]))
      else if rest != [] && rest[0] == ',' then
        match ReadMembers(rest[1..])
        case None => None
        case Some((ms, after)) => Some(([m] + ms, after))
      else None
  }

  lemma ReadMembersLast(t: string, m: (string, JsonValue), rest: string)
    requires ReadMember(t) == Some((m, "}" + rest))
    ensures ReadMembers(t) == Some(([m], rest))
  {
    assert ("}" + rest)[1..] == rest;
  }

  lemma ReadMembersNext(t: string, m: (string, JsonValue), more: string,
                        ms: seq<(string, JsonValue)>, rest: string)
    requires ReadMember(t) == Some((m, "," + more))
    requires ReadMembers(more) == Some((ms, rest))
    ensures ReadMembers(t) == Some(([m] + ms, rest))
  {
    assert ("," + more)[1..] == more;
  }

  /** The text of the members followed by the closing brace, split after
      the first member. */
  lemma MembersTextShape(ms: seq<(string, JsonValue)>, rest: string)
    requires ms != []
    ensures |ms| == 1 ==> MembersText(ms) + "}" + rest == MemberText(ms[0]) + ("}" + rest)
    ensures |ms| > 1 ==> MembersText(ms) + "}" + rest
                         == MemberText(ms[0]) + ("," + (MembersText(ms[1..]) + "}" + rest))
  {
    var all := MembersText(ms);
    Associative(all, "}", rest);
    if |ms| > 1 {
      var a, b := MemberText(ms[0]), MembersText(ms[1..]);
      assert all == (a + ",") + b;
      Associative(a + ",", b, "}" + rest);
      Associative(a, ",", b + ("}" + rest));
      Associative(b, "}", rest);
    }
  }

  lemma {:induction false} MembersTextReads(ms: seq<(string, JsonValue)>, rest: string)
    requires ms != []
    ensures ReadMembers(MembersText(ms) + "}" + rest) == Some((ms, rest))
  {
    if |ms| == 1 {
      LastMemberReads(ms, rest);
    } else {
      MembersTextReads(ms[1..], rest);
      NextMemberReads(ms, rest);
    }
  }

  lemma LastMemberReads(ms: seq<(string, JsonValue)>, rest: string)
    requires |ms| == 1
    ensures ReadMembers(MembersText(ms) + "}" + rest) == Some((ms, rest))
  {
    MembersTextShape(ms, rest);
    MemberTextReads(ms[0], "}" + rest);
    ReadMembersLast(MembersText(ms) + "}" + rest, ms[0], rest);
    assert [ms[0]] == ms;
  }

  lemma NextMemberReads(ms: seq<(string, JsonValue)>, rest: string)
    requires |ms| > 1
    requires ReadMembers(MembersText(ms[1..]) + "}" + rest) == Some((ms[1..], rest))
    ensures ReadMembers(MembersText(ms) + "}" + rest) == Some((ms, rest))
  {
    var more := MembersText(ms[1..]) + "}" + rest;
    ReadMembersCons(ms[0], more, ms[1..], rest);
    FirstMemberSplit(ms, rest);
  }

  /** Splitting the members after the first one does not change what is read. */
  lemma FirstMemberSplit(ms: seq<(string, JsonValue)>, rest: string)
    requires |ms| > 1
    ensures ReadMembers(MembersText(ms) + "}" + rest)
            == ReadMembers(MemberText(ms[0]) + ("," + (MembersText(ms[1..]) + "}" + rest)))
    ensures [ms[0]] + ms[1..] == ms
  {
    MembersTextShape(ms, rest);
  }

  /** A member's text and a comma in front of members that read back. */
  lemma ReadMembersCons(m: (string, JsonValue), more: string, ms: seq<(string, JsonValue)>, rest: string)
    requires ReadMembers(more) == Some((ms, rest))
    ensures ReadMembers(MemberText(m) + ("," + more)) == Some(([m] + ms, rest))
  {
    MemberTextReads(m, "," + more);
    ReadMembersNext(MemberText(m) + ("," + more), m, more, ms, rest);
  }

  /** Read a whole object text; `None` unless it is a flat object and
      nothing follows it. */
  function ReadObject(t: string): Option<seq<(string, JsonValue)>> {
    if t == "{}" then Some([])
    else if t == [] || t[0] != '{' then None
    else
      match ReadMembers(t[1..])
      case Some((ms, rest)) => if rest == [] then Some(ms) else None
      case None => None
  }

  lemma ObjectTextShape(ms: seq<(string, JsonValue)>)
    requires ms != []
    ensures ObjectText(ms) != "{}" && ObjectText(ms)[0] == '{'
    ensures ObjectText(ms)[1..] == MembersText(ms) + "}" + ""
  {
    var body := MembersText(ms) + "}";
    assert |body| > 1;
    assert ObjectText(ms) == "{" + body;
    assert ("{" + body)[1..] == body;
    assert body + "" == body;
  }

  /** The object text reads back as its members, in order. */
  lemma ObjectTextReads(ms: seq<(string, JsonValue)>)
    ensures ReadObject(ObjectText(ms)) == Some(ms)
  {
    if ms != [] {
      ObjectTextShape(ms);
      MembersTextReads(ms, "");
    }
  }

  /** Two contexts with the same text are the same context. */
  lemma ObjectTextInjective(a: seq<(string, JsonValue)>, b: seq<(string, JsonValue)>)
    requires ObjectText(a) == ObjectText(b)
    ensures a == b
  {
    ObjectTextReads(a);
    ObjectTextReads(b);
  }
}
