/**
 * The text the session cache holds under its user key: `JSON.stringify` of
 * an `AuthUser` record `{ id, email, name }` (src/contexts/AuthContext.tsx),
 * and the `JSON.parse` that reads it back. The encoder writes exactly what
 * `JSON.stringify` writes for such a record; the decoder reads that shape,
 * with JSON's string escapes except the `\u` escapes of surrogate halves (so
 * a character written as a surrogate pair is not read), and fails on
 * everything else.
 */
module UserCodec {
  import opened Common

  /** `AuthUser`: the signed-in user the application shows. */
  datatype AuthUser = AuthUser(id: string, email: string, name: string)

  /*** Encoding ***/

  /** The lower-case hexadecimal digit of `n`. */
  function HexDigit(n: int): char
    requires 0 <= n < 16
  {
    "0123456789abcdef"[n]
  }

  /** How `JSON.stringify` writes one character inside a string. */
  function EscapeChar(c: char): string {
    if c == '"' then "\\\""
    else if c == '\\' then "\\\\"
    else if c == '\U{8}' then "\\b"
    else if c == '\U{C}' then "\\f"
    else if c == '\n' then "\\n"
    else if c == '\r' then "\\r"
    else if c == '\t' then "\\t"
    else if c < ' ' then "\\u00" + [HexDigit(c as int / 16), HexDigit(c as int % 16)]
    else [c]
  }

  /** The characters of `s`, each escaped. */
  function EscapeBody(s: string): string {
    if s == [] then "" else EscapeChar(s[0]) + EscapeBody(s[1..])
  }

  /** A JSON string literal holding `s`. */
  function Quote(s: string): string {
    "\"" + EscapeBody(s) + "\""
  }

  const IdField: string := "{\"id\":"
  const EmailField: string := ",\"email\":"
  const NameField: string := ",\"name\":"
  const Close: string := "}"

  /** `JSON.stringify(user)`: an object literal that opens with the `id` field and ends with its closing brace. */
  function EncodeUser(u: AuthUser): (r: string)
    ensures IdField <= r
    ensures r != [] && r[|r| - 1] == '}'
  {
    IdField + (Quote(u.id) + (EmailField + (Quote(u.email) + (NameField + (Quote(u.name) + Close)))))
  }

  /*** Decoding ***/

  /** The value of a hexadecimal digit in either case. */
  function HexValue(c: char): (r: Option<int>)
    ensures r.Some? ==> 0 <= r.value < 16
  {
    if '0' <= c <= '9' then Some(c as int - '0' as int)
    else if 'a' <= c <= 'f' then Some(c as int - 'a' as int + 10)
    else if 'A' <= c <= 'F' then Some(c as int - 'A' as int + 10)
    else None
  }

  /** The character a `\uXXXX` escape names; `None` for malformed digits and for a surrogate half. */
  function UnicodeEscape(d: string): Option<char>
    requires |d| == 4
  {
    match (HexValue(d[0]), HexValue(d[1]), HexValue(d[2]), HexValue(d[3]))
    case (Some(a), Some(b), Some(c), Some(e)) =>
      var v := 4096 * a + 256 * b + 16 * c + e;
      if 0xD800 <= v < 0xE000 then None else Some(v as char)
    case _ => None
  }

  /** The character a two-character escape `\x` names. */
  function SimpleEscape(x: char): Option<char> {
    if x == '"' then Some('"')
    else if x == '\\' then Some('\\')
    else if x == '/' then Some('/')
    else if x == 'b' then Some('\U{8}')
    else if x == 'f' then Some('\U{C}')
    else if x == 'n' then Some('\n')
    else if x == 'r' then Some('\r')
    else if x == 't' then Some('\t')
    else None
  }

  /** Puts `c` in front of the decoded text of a parse result. */
  function Prepend(c: char, p: Option<(string, string)>): (r: Option<(string, string)>)
    ensures r.Some? <==> p.Some?
    ensures r.Some? ==> r.value.1 == p.value.1
  {
    match p
    case Some((text, rest)) => Some(([c] + text, rest))
    case None => None
  }

  /**
   * The body of a JSON string up to and including its closing quote: the
   * decoded text and what follows the quote.
   */
  function ParseBody(s: string): (r: Option<(string, string)>)
    ensures r.Some? ==> |r.value.1| < |s| && r.value.1 == s[|s| - |r.value.1|..]
    decreases |s|
  {
    if s == [] then None
    else if s[0] == '"' then Some(("", s[1..]))
    else if s[0] == '\\' then
      if |s| < 2 then None
      else if s[1] == 'u' then
        if |s| < 6 then None
        else match UnicodeEscape(s[2..6])
          case Some(c) => Prepend(c, ParseBody(s[6..]))
          case None => None
      else match SimpleEscape(s[1])
        case Some(c) => Prepend(c, ParseBody(s[2..]))
        case None => None
    else if s[0] < ' ' then None
    else Prepend(s[0], ParseBody(s[1..]))
  }

  /** A JSON string literal at the start of `s`: its text and what follows it. */
  function ParseString(s: string): (r: Option<(string, string)>)
    ensures r.Some? ==> |r.value.1| < |s| && r.value.1 == s[|s| - |r.value.1|..]
  {
    if s != [] && s[0] == '"' then ParseBody(s[1..]) else None
  }

  /** What follows `prefix` in `s`, when `s` starts with it. */
  function StripPrefix(prefix: string, s: string): (r: Option<string>)
    ensures r.Some? ==> prefix <= s && r.value == s[|prefix|..]
  {
    if prefix <= s then Some(s[|prefix|..]) else None
  }

  /**
   * `JSON.parse` of a cached user; `None` where `JSON.parse` would throw or
   * yield no such record. Only a text that opens with the `id` field and
   * ends with a closing brace is read.
   */
  function DecodeUser(s: string): (r: Option<AuthUser>)
    ensures r.Some? ==> IdField <= s && s[|s| - 1] == '}'
  {
    match StripPrefix(IdField, s)
    case None => None
    case Some(s1) =>
      match ParseString(s1)
      case None => None
      case Some((id, s2)) =>
        LastOfSuffix(s, s1, s2);
        DecodeEmail(id, s2)
  }

  /** A suffix of a suffix of `s` ends with the last character of `s`. */
  lemma LastOfSuffix(s: string, s1: string, s2: string)
    requires |s1| <= |s| && s1 == s[|s| - |s1|..]
    requires |s2| <= |s1| && s2 == s1[|s1| - |s2|..]
    ensures |s2| > 0 ==> s[|s| - 1] == s2[|s2| - 1]
  {
    if |s2| > 0 {
      assert s2[|s2| - 1] == s1[|s1| - 1];
    }
  }

  /** The rest of a cached user once its `id` has been read. */
  function DecodeEmail(id: string, s: string): (r: Option<AuthUser>)
    ensures r.Some? ==> EmailField <= s && s[|s| - 1] == '}'
  {
    match StripPrefix(EmailField, s)
    case None => None
    case Some(s1) =>
      match ParseString(s1)
      case None => None
      case Some((email, s2)) => DecodeName(id, email, s2)
  }

  /** The rest of a cached user once its `id` and `email` have been read. */
  function DecodeName(id: string, email: string, s: string): (r: Option<AuthUser>)
    ensures r.Some? ==> NameField <= s && s[|s| - 1] == '}'
  {
    match StripPrefix(NameField, s)
    case None => None
    case Some(s1) =>
      match ParseString(s1)
      case None => None
      case Some((name, s2)) => if s2 == Close then Some(AuthUser(id, email, name)) else None
  }

  /*** Round trip ***/

  lemma StripPrefixOf(prefix: string, t: string)
    ensures StripPrefix(prefix, prefix + t) == Some(t)
  {
    assert prefix <= prefix + t;
    assert (prefix + t)[|prefix|..] == t;
  }

  lemma HexRoundTrip(n: int)
    requires 0 <= n < 16
    ensures HexValue(HexDigit(n)) == Some(n)
  {
  }

  /** Reading a control character written as `\u00XX` gives it back and continues after it. */
  lemma ParseUnicodeEscaped(c: char, t: string)
    requires c < ' ' && c != '\U{8}' && c != '\U{C}' && c != '\n' && c != '\r' && c != '\t'
    ensures ParseBody(EscapeChar(c) + t) == Prepend(c, ParseBody(t))
  {
    var s := EscapeChar(c) + t;
    var hi, lo := c as int / 16, c as int % 16;
    HexRoundTrip(hi);
    HexRoundTrip(lo);
    assert s[0] == '\\' && s[1] == 'u';
    assert s[2..6] == ['0', '0', HexDigit(hi), HexDigit(lo)];
    assert s[6..] == t;
    assert UnicodeEscape(s[2..6]) == Some(c);
  }

  /** Reading one escaped character gives the character back and continues after it. */
  lemma ParseEscapedChar(c: char, t: string)
    ensures ParseBody(EscapeChar(c) + t) == Prepend(c, ParseBody(t))
  {
    var s := EscapeChar(c) + t;
    if c == '"' || c == '\\' || c == '\U{8}' || c == '\U{C}' || c == '\n' || c == '\r' || c == '\t' {
      assert s[0] == '\\' && s[2..] == t;
    } else if c < ' ' {
      ParseUnicodeEscaped(c, t);
    } else {
      assert s[0] == c && s[1..] == t;
    }
  }

  /** The escaped body of `x` followed by a closing quote reads back as `x`. */
  lemma {:induction false} ParseBodyRoundTrip(x: string, rest: string)
    ensures ParseBody(EscapeBody(x) + "\"" + rest) == Some((x, rest))
  {
    if x == [] {
      assert EscapeBody(x) + "\"" + rest == "\"" + rest;
      assert ("\"" + rest)[1..] == rest;
    } else {
      var tail := EscapeBody(x[1..]) + "\"" + rest;
      assert EscapeBody(x) + "\"" + rest == EscapeChar(x[0]) + tail by {
        assert EscapeBody(x) == EscapeChar(x[0]) + EscapeBody(x[1..]);
      }
      ParseEscapedChar(x[0], tail);
      ParseBodyRoundTrip(x[1..], rest);
      assert [x[0]] + x[1..] == x;
    }
  }

  /** A quoted string reads back as itself, followed by what came after it. */
  lemma ParseStringRoundTrip(x: string, rest: string)
    ensures ParseString(Quote(x) + rest) == Some((x, rest))
  {
    var s := Quote(x) + rest;
    assert s[0] == '"';
    assert s[1..] == EscapeBody(x) + "\"" + rest;
    ParseBodyRoundTrip(x, rest);
  }

  lemma DecodeNameOf(id: string, email: string, name: string)
    ensures DecodeName(id, email, NameField + (Quote(name) + Close)) == Some(AuthUser(id, email, name))
  {
    StripPrefixOf(NameField, Quote(name) + Close);
    ParseStringRoundTrip(name, Close);
  }

  lemma DecodeEmailOf(id: string, email: string, tail: string)
    ensures DecodeEmail(id, EmailField + (Quote(email) + tail)) == DecodeName(id, email, tail)
  {
    StripPrefixOf(EmailField, Quote(email) + tail);
    ParseStringRoundTrip(email, tail);
  }

  lemma DecodeIdOf(id: string, tail: string)
    ensures DecodeUser(IdField + (Quote(id) + tail)) == DecodeEmail(id, tail)
  {
    StripPrefixOf(IdField, Quote(id) + tail);
    ParseStringRoundTrip(id, tail);
  }

  /** Reading back what was cached gives the same user. */
  lemma DecodeEncode(u: AuthUser)
    ensures DecodeUser(EncodeUser(u)) == Some(u)
  {
    var tail2 := NameField + (Quote(u.name) + Close);
    var tail1 := EmailField + (Quote(u.email) + tail2);
    DecodeIdOf(u.id, tail1);
    DecodeEmailOf(u.id, u.email, tail2);
    DecodeNameOf(u.id, u.email, u.name);
  }

  /** Different users are cached as different texts. */
  lemma EncodeInjective(u: AuthUser, v: AuthUser)
    requires EncodeUser(u) == EncodeUser(v)
    ensures u == v
  {
    DecodeEncode(u);
    DecodeEncode(v);
  }
}
