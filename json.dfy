/** JSON string literals (section 7 of RFC 8259): how `JSON.stringify` writes a
    string, and a reader for string literals that undoes it. */
module Json {
  import opened Optional
  import Strings

  function HexDigit(d: nat): (c: char)
    requires d < 16
  {
    if d < 10 then ('0' as int + d) as char else ('a' as int + d - 10) as char
  }

  /** The value of one hexadecimal digit, in either case. */
  function HexValue(c: char): (r: Option<nat>)
    ensures r.Some? ==> r.value < 16
  {
    if '0' <= c <= '9' then Some(c as int - '0' as int)
    else if 'a' <= c <= 'f' then Some(c as int - 'a' as int + 10)
    else if 'A' <= c <= 'F' then Some(c as int - 'A' as int + 10)
    else None
  }

  lemma HexDigitValue(d: nat)
    requires d < 16
    ensures HexValue(HexDigit(d)) == Some(d)
  {
  }

  /** The value of the four hexadecimal digits at the start of `s`. */
  function Hex4(s: string): (r: Option<nat>)
    requires |s| >= 4
    ensures r.Some? ==> r.value < 0x10000
  {
    match (HexValue(s[0]), HexValue(s[1]), HexValue(s[2]), HexValue(s[3]))
    case (Some(a), Some(b), Some(c), Some(d)) => Some(((a * 16 + b) * 16 + c) * 16 + d)
    case _ => None
  }

  // ---------------------------------------------------------------- writing

  /** How `JSON.stringify` writes one character inside a string literal: the two
      delimiters and the control characters are escaped, everything else is kept. */
  function EscapeChar(c: char): (r: string)
    ensures |r| >= 1
    ensures forall k :: 0 <= k < |r| ==> r[k] as int >= 0x20
    ensures r[0] != '"'
  {
    var n := c as int;
    if c == '"' then ['\\', '"']
    else if c == '\\' then ['\\', '\\']
    else if n == 0x08 then ['\\', 'b']
    else if n == 0x09 then ['\\', 't']
    else if n == 0x0A then ['\\', 'n']
    else if n == 0x0C then ['\\', 'f']
    else if n == 0x0D then ['\\', 'r']
    else if n < 0x20 then ['\\', 'u', '0', '0', HexDigit(n / 16), HexDigit(n % 16)]
    else [c]
  }

  /** The characters of `s`, each escaped, in order. */
  function Escape(s: string): (r: string)
    ensures |s| <= |r| <= 6 * |s|
    ensures forall k :: 0 <= k < |r| ==> r[k] as int >= 0x20
  {
    if |s| == 0 then "" else EscapeChar(s[0]) + Escape(s[1..])
  }

  /** `JSON.stringify(s)` for a string `s`: a literal with no control character in it,
      so in particular no line feed and no carriage return. */
  function Quote(s: string): (r: string)
    ensures |r| >= 2 && r[0] == '"' && r[|r| - 1] == '"'
    ensures forall k :: 0 <= k < |r| ==> r[k] as int >= 0x20
  {
    "\"" + Escape(s) + "\""
  }

  // ---------------------------------------------------------------- reading

  /** The character a backslash escape at the start of `s` stands for and the number
      of characters the escape takes; a `\u` escape of a surrogate must be the
      first half of a pair. */
  function ParseEscape(s: string): (r: Option<(char, nat)>)
    requires |s| >= 1 && s[0] == '\\'
    ensures r.Some? ==> 2 <= r.value.1 <= |s|
  {
    if |s| < 2 then None
    else match s[1]
      case '"' => Some(('"', 2))
      case '\\' => Some(('\\', 2))
      case '/' => Some(('/', 2))
      case 'b' => Some((8 as char, 2))
      case 'f' => Some((12 as char, 2))
      case 'n' => Some(('\n', 2))
      case 'r' => Some(('\r', 2))
      case 't' => Some(('\t', 2))
      case 'u' =>
        if |s| < 6 then None
        else (match Hex4(s[2..6])
          case None => None
          case Some(v) =>
            if v < 0xD800 || 0xE000 <= v then Some((v as char, 6))
            else if v < 0xDC00 && |s| >= 12 && s[6] == '\\' && s[7] == 'u' then
              match Hex4(s[8..12])
              case None => None
              case Some(w) =>
                if 0xDC00 <= w < 0xE000
                then Some(((0x10000 + (v - 0xD800) * 0x400 + (w - 0xDC00)) as char, 12))
                else None
            else None)
      case _ => None
  }

  /** Puts `c` in front of the value of a successful read. */
  function Prepend(c: char, r: Option<(string, string)>): Option<(string, string)> {
    match r
    case None => None
    case Some((v, rest)) => Some(([c] + v, rest))
  }

  /** Reads the characters of a string literal after its opening quote, up to and
      including the closing quote: the value and the text after the literal. */
  function ParseBody(s: string): (r: Option<(string, string)>)
    ensures r.Some? ==> |r.value.1| < |s|
    decreases |s|
  {
    if |s| == 0 then None
    else if s[0] == '"' then Some(("", s[1..]))
    else if s[0] == '\\' then
      match ParseEscape(s)
      case None => None
      case Some((c, n)) => Prepend(c, ParseBody(s[n..]))
    else if (s[0] as int) < 0x20 then None
    else Prepend(s[0], ParseBody(s[1..]))
  }

  /** Reads a string literal at the start of `s`: its value and the text after it. */
  function ParseString(s: string): (r: Option<(string, string)>)
    ensures r.Some? ==> |r.value.1| < |s|
  {
    if |s| > 0 && s[0] == '"' then ParseBody(s[1..]) else None
  }

  // ---------------------------------------------------------------- round trip

  /** The reader turns the escape of one character back into that character. */
  lemma EscapeCharParses(c: char, t: string)
    ensures ParseBody(EscapeChar(c) + t) == Prepend(c, ParseBody(t))
  {
    var e := EscapeChar(c);
    var n := c as int;
    var s := e + t;
    if c != '"' && c != '\\' && n != 0x08 && n != 0x09 && n != 0x0A && n != 0x0C && n != 0x0D {
      if n < 0x20 {
        HexDigitValue(n / 16);
        HexDigitValue(n % 16);
        assert s[2..6] == ['0', '0', HexDigit(n / 16), HexDigit(n % 16)];
        assert Hex4(s[2..6]) == Some(n);
        assert ParseEscape(s) == Some((c, 6));
        assert s[6..] == t;
      } else {
        assert s[1..] == t;
      }
    } else {
      assert ParseEscape(s).value.0 == c;
      assert s[2..] == t;
    }
  }

  /** The escaped text starts with the escape of the first character. */
  lemma EscapeFirst(d: string, rest: string)
    requires |d| > 0
    ensures Escape(d) + "\"" + rest == EscapeChar(d[0]) + (Escape(d[1..]) + "\"" + rest)
  {
    assert Escape(d) == EscapeChar(d[0]) + Escape(d[1..]);
    Strings.Regroup(EscapeChar(d[0]), Escape(d[1..]), "\"", rest);
  }

  lemma {:induction false} ParseEscaped(d: string, rest: string)
    ensures ParseBody(Escape(d) + "\"" + rest) == Some((d, rest))
  {
    if |d| == 0 {
      assert Escape(d) + "\"" + rest == "\"" + rest;
    } else {
      var t := Escape(d[1..]) + "\"" + rest;
      ParseEscaped(d[1..], rest);
      EscapeFirst(d, rest);
      EscapeCharParses(d[0], t);
      assert [d[0]] + d[1..] == d;
    }
  }

  /** Reading what `JSON.stringify` wrote gives back the string, and the reader stops
      exactly at the closing quote, whatever follows it. */
  lemma QuoteRoundTrip(d: string, rest: string)
    ensures ParseString(Quote(d) + rest) == Some((d, rest))
  {
    var s := Quote(d) + rest;
    assert s[1..] == Escape(d) + "\"" + rest;
    ParseEscaped(d, rest);
  }
}
