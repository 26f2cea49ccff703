/** The part of `JSON.stringify` the core relies on: a string value written as a JSON
    string literal (section 7 of RFC 8259), and its reading back. */
module Json {
  import opened Wrappers

  const HEX_DIGITS := "0123456789abcdef"

  function HexDigit(n: nat): (c: char)
    requires n < 16
  {
    HEX_DIGITS[n]
  }

  /** The value of a lower-case or upper-case hexadecimal digit. */
  function HexValue(c: char): (v: Option<nat>)
    ensures v.Some? ==> v.value < 16
  {
    if '0' <= c <= '9' then Some(c as int - '0' as int)
    else if 'a' <= c <= 'f' then Some(c as int - 'a' as int + 10)
    else if 'A' <= c <= 'F' then Some(c as int - 'A' as int + 10)
    else None
  }

  lemma HexDigitValue(n: nat)
    requires n < 16
    ensures HexValue(HexDigit(n)) == Some(n)
  {
  }

  /** How `JSON.stringify` writes one character inside a string literal: the quote and
      the backslash escaped, the five control characters with short escapes by their
      letter, the other control characters as `\u00xx` in lower-case hex, anything else
      as itself. */
  function EscapeChar(c: char): (r: string)
    ensures r != [] && (r[0] == '\\' || r == [c])
    ensures r == [c] <==> c != '"' && c != '\\' && c as int >= 0x20
  {
    if c == '"' then ['\\', '"']
    else if c == '\\' then ['\\', '\\']
    else if c as int == 0x08 then ['\\', 'b']
    else if c as int == 0x0C then ['\\', 'f']
    else if c as int == 0x0A then ['\\', 'n']
    else if c as int == 0x0D then ['\\', 'r']
    else if c as int == 0x09 then ['\\', 't']
    else if c as int < 0x20 then ['\\', 'u', '0', '0', HexDigit(c as int / 16), HexDigit(c as int % 16)]
    else [c]
  }

  function Escape(s: string): (r: string)
    ensures |s| <= |r| <= 6 * |s|
  {
    if s == [] then [] else EscapeChar(s[0]) + Escape(s[1..])
  }

  /** `JSON.stringify` of a string. */
  function Quote(s: string): (r: string)
    ensures |r| == |Escape(s)| + 2 && r[0] == '"' && r[|r| - 1] == '"'
  {
    ['"'] + Escape(s) + ['"']
  }

  /** `JSON.stringify` of an array of strings: the quoted items between brackets,
      separated by commas. */
  function StringArray(items: seq<string>): (r: string)
    ensures |r| >= 2 && r[0] == '[' && r[|r| - 1] == ']'
    ensures r == "[]" <==> items == []
  {
    "[" + QuotedItems(items) + "]"
  }

  function QuotedItems(items: seq<string>): (r: string)
    ensures items == [] <==> r == []
  {
    if items == [] then ""
    else if |items| == 1 then Quote(items[0])
    else Quote(items[0]) + "," + QuotedItems(items[1..])
  }

  /** The short escape letters and the characters they stand for. */
  function ShortEscape(c: char): Option<char> {
    if c == '"' then Some('"')
    else if c == '\\' then Some('\\')
    else if c == '/' then Some('/')
    else if c == 'b' then Some(0x08 as char)
    else if c == 'f' then Some(0x0C as char)
    else if c == 'n' then Some(0x0A as char)
    else if c == 'r' then Some(0x0D as char)
    else if c == 't' then Some(0x09 as char)
    else None
  }

  /** The value of four hexadecimal digits. */
  function Hex4(t: string): (v: Option<nat>)
    requires |t| == 4
    ensures v.Some? ==> v.value < 0x10000
  {
    var a, b, c, d := HexValue(t[0]), HexValue(t[1]), HexValue(t[2]), HexValue(t[3]);
    if a.Some? && b.Some? && c.Some? && d.Some? then Some(((a.value * 16 + b.value) * 16 + c.value) * 16 + d.value)
    else None
  }

  /** The characters of the body of a JSON string literal; none when the body is
      malformed: a bare quote or control character, an unknown escape, or a `\u` escape
      of a surrogate code unit (surrogate pairs are not read). */
  function Unescape(t: string): (r: Option<string>)
    decreases |t|
  {
    if t == [] then Some([])
    else if t[0] == '"' || t[0] as int < 0x20 then None
    else if t[0] != '\\' then
      var rest := Unescape(t[1..]);
      if rest.Some? then Some([t[0]] + rest.value) else None
    else if |t| >= 2 && ShortEscape(t[1]).Some? then
      var rest := Unescape(t[2..]);
      if rest.Some? then Some([ShortEscape(t[1]).value] + rest.value) else None
    else if |t| >= 6 && t[1] == 'u' && Hex4(t[2..6]).Some? && !(0xD800 <= Hex4(t[2..6]).value < 0xE000) then
      var rest := Unescape(t[6..]);
      if rest.Some? then Some([Hex4(t[2..6]).value as char] + rest.value) else None
    else None
  }

  /** Reading back an escaped character followed by more text. */
  lemma UnescapeChar(c: char, rest: string)
    ensures Unescape(EscapeChar(c) + rest) ==
      if Unescape(rest).Some? then Some([c] + Unescape(rest).value) else None
  {
    var n := c as int;
    if c == '"' {
      UnescapeShort(c, '"', rest);
    } else if c == '\\' {
      UnescapeShort(c, '\\', rest);
    } else if n == 0x08 {
      UnescapeShort(c, 'b', rest);
    } else if n == 0x0C {
      UnescapeShort(c, 'f', rest);
    } else if n == 0x0A {
      UnescapeShort(c, 'n', rest);
    } else if n == 0x0D {
      UnescapeShort(c, 'r', rest);
    } else if n == 0x09 {
      UnescapeShort(c, 't', rest);
    } else if n < 0x20 {
      UnescapeHex(c, rest);
    } else {
      assert ([c] + rest)[1..] == rest;
    }
  }

  lemma UnescapeShort(c: char, letter: char, rest: string)
    requires EscapeChar(c) == ['\\', letter] && ShortEscape(letter) == Some(c)
    ensures Unescape(EscapeChar(c) + rest) ==
      if Unescape(rest).Some? then Some([c] + Unescape(rest).value) else None
  {
    assert (['\\', letter] + rest)[2..] == rest;
  }

  lemma UnescapeHex(c: char, rest: string)
    requires c as int < 0x20
    requires EscapeChar(c) == ['\\', 'u', '0', '0', HexDigit(c as int / 16), HexDigit(c as int % 16)]
    ensures Unescape(EscapeChar(c) + rest) ==
      if Unescape(rest).Some? then Some([c] + Unescape(rest).value) else None
  {
    var n := c as int;
    var t := EscapeChar(c) + rest;
    HexDigitValue(n / 16);
    HexDigitValue(n % 16);
    assert t[2..6] == ['0', '0', HexDigit(n / 16), HexDigit(n % 16)];
    assert Hex4(t[2..6]) == Some(n);
    assert t[6..] == rest;
    assert ShortEscape(t[1]).None?;
  }

  /** Reading an escaped string back gives the string. */
  lemma {:induction false} UnescapeEscape(s: string)
    ensures Unescape(Escape(s)) == Some(s)
  {
    if s != [] {
      UnescapeEscape(s[1..]);
      UnescapeChar(s[0], Escape(s[1..]));
      assert [s[0]] + s[1..] == s;
    }
  }

  /** The first `n` characters, as `String.prototype.slice(0, n)` takes them. */
  function Slice(s: string, n: nat): (r: string)
    ensures |r| <= n && |r| <= |s| && r == s[..|r|]
    ensures |s| <= n ==> r == s
  {
    if |s| <= n then s else s[..n]
  }
}
