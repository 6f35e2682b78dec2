/** The JSON string escaping that Jackson's default `ObjectMapper` applies when
    it writes a string value, and the reading that undoes it.

    Jackson writes `"` and `\` with a backslash, the five control characters
    backspace, tab, line feed, form feed and carriage return as `\b`, `\t`,
    `\n`, `\f`, `\r`, every other character below U+0020 as `\u00XX` with
    upper-case hex digits, and everything else unchanged. */
module Json {
  import opened Wrappers

  function HexDigit(d: nat): (c: char)
    requires d < 16
    ensures c as int >= 0x20
  {
    if d < 10 then ('0' as int + d) as char else ('A' as int + d - 10) as char
  }

  function HexValue(c: char): (r: Option<nat>)
    ensures r.Some? ==> r.value < 16
  {
    if '0' <= c <= '9' then Some(c as int - '0' as int)
    else if 'A' <= c <= 'F' then Some(c as int - 'A' as int + 10)
    else if 'a' <= c <= 'f' then Some(c as int - 'a' as int + 10)
    else None
  }

  /** The short escape letter Jackson uses for a control character, if any. */
  function ShortEscape(c: char): Option<char> {
    if c as int == 0x08 then Some('b')
    else if c as int == 0x09 then Some('t')
    else if c as int == 0x0A then Some('n')
    else if c as int == 0x0C then Some('f')
    else if c as int == 0x0D then Some('r')
    else None
  }

  /** The control character a short escape letter stands for, if any. */
  function ShortUnescape(e: char): Option<char> {
    if e == 'b' then Some(0x08 as char)
    else if e == 't' then Some(0x09 as char)
    else if e == 'n' then Some(0x0A as char)
    else if e == 'f' then Some(0x0C as char)
    else if e == 'r' then Some(0x0D as char)
    else None
  }

  function EscapeChar(c: char): (r: string)
    ensures |r| > 0
    ensures forall i :: 0 <= i < |r| ==> r[i] as int >= 0x20
  {
    if c == '"' then ['\\', '"']
    else if c == '\\' then ['\\', '\\']
    else if ShortEscape(c).Some? then ['\\', ShortEscape(c).value]
    else if c as int < 0x20 then ['\\', 'u', '0', '0', HexDigit(c as int / 16), HexDigit(c as int % 16)]
    else [c]
  }

  /** The characters Jackson writes between the quotes of a JSON string. The
      result never holds a raw control character (in particular no line feed). */
  function Escape(s: string): (r: string)
    ensures |r| >= |s|
    ensures forall i :: 0 <= i < |r| ==> r[i] as int >= 0x20
  {
    if s == [] then [] else EscapeChar(s[0]) + Escape(s[1..])
  }

  /** Prepends `c` to the string a successful read returned. */
  function Cons(c: char, read: Option<(string, string)>): Option<(string, string)> {
    match read
    case None => None
    case Some((v, rest)) => Some(([c] + v, rest))
  }

  /** Reads the body of a JSON string that starts right after its opening quote:
      the unescaped value and what follows the closing quote. */
  function ReadString(s: string): Option<(string, string)>
    decreases |s|
  {
    if s == [] then None
    else if s[0] == '"' then Some(([], s[1..]))
    else if s[0] as int < 0x20 then None
    else if s[0] != '\\' then Cons(s[0], ReadString(s[1..]))
    else if |s| < 2 then None
    else if s[1] == '"' || s[1] == '\\' || s[1] == '/' then Cons(s[1], ReadString(s[2..]))
    else if ShortUnescape(s[1]).Some? then Cons(ShortUnescape(s[1]).value, ReadString(s[2..]))
    else if s[1] == 'u' && |s| >= 6 && s[2] == '0' && s[3] == '0'
            && HexValue(s[4]).Some? && HexValue(s[5]).Some? then
      Cons((16 * HexValue(s[4]).value + HexValue(s[5]).value) as char, ReadString(s[6..]))
    else None
  }

  lemma HexRoundTrip(d: nat)
    requires d < 16
    ensures HexValue(HexDigit(d)) == Some(d)
  {
  }

  /** Reading one escaped character gives back that character. */
  lemma ReadEscapedChar(c: char, t: string)
    ensures ReadString(EscapeChar(c) + t) == Cons(c, ReadString(t))
  {
    var s := EscapeChar(c) + t;
    if c == '"' || c == '\\' {
      assert s[2..] == t;
    } else if ShortEscape(c).Some? {
      assert s[2..] == t;
    } else if c as int < 0x20 {
      var n := c as int;
      HexRoundTrip(n / 16);
      HexRoundTrip(n % 16);
      assert s[6..] == t;
      assert (16 * (n / 16) + n % 16) as char == c;
    } else {
      assert s[1..] == t;
    }
  }

  /** Reading back what `Escape` wrote, followed by the closing quote, gives the
      original string and leaves what follows the quote. */
  lemma {:induction false} ReadEscaped(x: string, rest: string)
    ensures ReadString(Escape(x) + ['"'] + rest) == Some((x, rest))
    decreases |x|
  {
    if x == [] {
      assert Escape(x) + ['"'] + rest == ['"'] + rest;
    } else {
      var t := Escape(x[1..]) + ['"'] + rest;
      assert Escape(x) + ['"'] + rest == EscapeChar(x[0]) + t;
      ReadEscapedChar(x[0], t);
      ReadEscaped(x[1..], rest);
      assert [x[0]] + x[1..] == x;
    }
  }
}
