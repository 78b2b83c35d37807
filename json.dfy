/** `JSON.stringify` applied to the `{ text }` comment object, and a decoder
    for the string literals it writes, so that the request body can be shown
    to carry the comment text unchanged. */
module Json {
  import opened Wrappers

  function HexDigit(d: nat): (c: char)
    requires d < 16
  {
    if d < 10 then ('0' as int + d) as char else ('a' as int + d - 10) as char
  }

  /** The value of one hexadecimal digit, either case. */
  function HexValue(c: char): Option<nat> {
    if '0' <= c <= '9' then Some(c as int - '0' as int)
    else if 'a' <= c <= 'f' then Some(c as int - 'a' as int + 10)
    else if 'A' <= c <= 'F' then Some(c as int - 'A' as int + 10)
    else None
  }

  lemma HexDigitValue(d: nat)
    requires d < 16
    ensures HexValue(HexDigit(d)) == Some(d)
  {
  }

  /** How `JSON.stringify` writes one character inside a string literal: the
      quote and the backslash escaped, backspace, tab, line feed, form feed and
      carriage return by their short escapes, every other control character as
      `\u00XX` with lower-case hex digits, and anything else (including '/' and
      DEL) as itself. */
  function EscapeChar(c: char): string {
    var n := c as int;
    if c == '"' then ['\\', '"']
    else if c == '\\' then ['\\', '\\']
    else if n == 0x08 then ['\\', 'b']
    else if n == 0x09 then ['\\', 't']
    else if n == 0x0A then ['\\', 'n']
    else if n == 0x0C then ['\\', 'f']
    else if n == 0x0D then ['\\', 'r']
    else if n < 0x20 then ['\\', 'u', '0', '0', HexDigit(n / 16), HexDigit(n % 16)]
    else [c]
  }

  function Escape(s: string): string {
    if s == [] then [] else EscapeChar(s[0]) + Escape(s[1..])
  }

  /** `JSON.stringify` of a string value. */
  function Quote(s: string): string {
    ['"'] + Escape(s) + ['"']
  }

  /** `JSON.stringify({ text: s })`: an object with the single member "text". */
  function TextObject(s: string): string {
    "{\"text\":" + Quote(s) + "}"
  }

  function Prepend(c: char, rest: Option<string>): Option<string> {
    match rest
    case None => None
    case Some(t) => Some([c] + t)
  }

  /** The value of four hexadecimal digits. */
  function Hex4(s: string): Option<nat>
    requires |s| == 4
  {
    match (HexValue(s[0]), HexValue(s[1]), HexValue(s[2]), HexValue(s[3]))
    case (Some(a), Some(b), Some(c), Some(d)) => Some(((a * 16 + b) * 16 + c) * 16 + d)
    case _ => None
  }

  /** Decodes the inside of a JSON string literal; None for text a JSON
      parser rejects (a raw quote or control character, an unknown escape)
      and for a `\u` escape of any surrogate code unit, paired or not, since
      surrogates are not characters here. */
  function Unescape(s: string): Option<string>
    decreases |s|
  {
    if s == [] then Some([])
    else if s[0] == '"' || (s[0] as int) < 0x20 then None
    else if s[0] != '\\' then Prepend(s[0], Unescape(s[1..]))
    else if |s| < 2 then None
    else match s[1]
      case '"' => Prepend('"', Unescape(s[2..]))
      case '\\' => Prepend('\\', Unescape(s[2..]))
      case '/' => Prepend('/', Unescape(s[2..]))
      case 'b' => Prepend(8 as char, Unescape(s[2..]))
      case 't' => Prepend(9 as char, Unescape(s[2..]))
      case 'n' => Prepend(10 as char, Unescape(s[2..]))
      case 'f' => Prepend(12 as char, Unescape(s[2..]))
      case 'r' => Prepend(13 as char, Unescape(s[2..]))
      case 'u' =>
        if |s| < 6 then None
        else
          (match Hex4(s[2..6])
           case None => None
           case Some(v) =>
             if v < 0xD800 || 0xE000 <= v < 0x11_0000 then Prepend(v as char, Unescape(s[6..])) else None)
      case _ => None
  }

  /** Decodes a JSON string literal. */
  function Unquote(q: string): Option<string> {
    if |q| >= 2 && q[0] == '"' && q[|q| - 1] == '"' then Unescape(q[1..|q| - 1]) else None
  }

  /** Reads the "text" member back out of a `{"text":...}` object. */
  function TextMember(b: string): Option<string> {
    var open := "{\"text\":";
    if |b| > |open| && b[..|open|] == open && b[|b| - 1] == '}' then Unquote(b[|open|..|b| - 1]) else None
  }

  /** Decoding one escaped character and then the rest. */
  lemma UnescapeChar(c: char, rest: string)
    ensures Unescape(EscapeChar(c) + rest) == Prepend(c, Unescape(rest))
  {
    var e := EscapeChar(c);
    var n := c as int;
    if |e| == 2 {
      assert (e + rest)[2..] == rest;
    } else if |e| == 6 {
      HexDigitValue(n / 16);
      HexDigitValue(n % 16);
      assert (e + rest)[2..6] == ['0', '0', HexDigit(n / 16), HexDigit(n % 16)];
      assert Hex4((e + rest)[2..6]) == Some(n);
      assert (e + rest)[6..] == rest;
    } else {
      assert (e + rest)[1..] == rest;
    }
  }

  /** Decoding what `Escape` writes gives back the original text. */
  lemma {:induction false} UnescapeEscape(s: string)
    ensures Unescape(Escape(s)) == Some(s)
  {
    if s != [] {
      UnescapeEscape(s[1..]);
      UnescapeChar(s[0], Escape(s[1..]));
      assert [s[0]] + s[1..] == s;
    }
  }

  /** A JSON string literal written by `Quote` decodes to its value. */
  lemma QuoteRoundTrip(s: string)
    ensures Unquote(Quote(s)) == Some(s)
  {
    var q := Quote(s);
    assert q[1..|q| - 1] == Escape(s);
    UnescapeEscape(s);
  }

  /** The "text" member of `TextObject(s)` reads back as `s`. */
  lemma TextObjectRoundTrip(s: string)
    ensures TextMember(TextObject(s)) == Some(s)
  {
    var b := TextObject(s);
    var open := "{\"text\":";
    assert b[..|open|] == open;
    assert b[|open|..|b| - 1] == Quote(s);
    QuoteRoundTrip(s);
  }
}
