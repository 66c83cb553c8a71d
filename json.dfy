/** The fragment of JSON the session store needs: `JSON.stringify` of an
    object whose members are all strings, and `JSON.parse` of such a text
    back into the values of an expected list of keys. String escaping
    follows ECMA-404 and the escape choices of `JSON.stringify`. */
module Json {
  import opened Common

  /** The lower-case hexadecimal digit of `n`. */
  function HexDigit(n: nat): (c: char)
    requires n < 16
    ensures HexValue(c) == Some(n)
  {
    if n < 10 then ('0' as int + n) as char else ('a' as int + n - 10) as char
  }

  /** The value of a hexadecimal digit of either case. */
  function HexValue(c: char): (r: Option<nat>)
    ensures r.Some? ==> r.value < 16
  {
    if '0' <= c <= '9' then Some(c as int - '0' as int)
    else if 'a' <= c <= 'f' then Some(c as int - 'a' as int + 10)
    else if 'A' <= c <= 'F' then Some(c as int - 'A' as int + 10)
    else None
  }

  /** How `JSON.stringify` writes one character inside a string: the quote
      and the backslash escaped, the five control characters with short
      escapes as such, every other control character as `\u00xx`, anything
      else as itself. */
  function EscapeChar(c: char): (r: string)
    ensures |r| >= 1
    ensures r[0] == '\\' || (r == [c] && c != '"' && c >= ' ')
  {
    if c == '"' then "\\\""
    else if c == '\\' then "\\\\"
    else if c == '\U{0008}' then "\\b"
    else if c == '\U{000C}' then "\\f"
    else if c == '\n' then "\\n"
    else if c == '\r' then "\\r"
    else if c == '\t' then "\\t"
    else if c < ' ' then ['\\', 'u', '0', '0', HexDigit(c as int / 16), HexDigit(c as int % 16)]
    else [c]
  }

  function Escape(s: string): string {
    if s == [] then "" else EscapeChar(s[0]) + Escape(s[1..])
  }

  /** A JSON string literal. */
  function Quote(s: string): string {
    "\"" + Escape(s) + "\""
  }

  /** Prepends `c` to the text read so far. */
  function Cons(c: char, r: Option<(string, string)>): Option<(string, string)> {
    match r
    case None => None
    case Some((text, rest)) => Some(([c] + text, rest))
  }

  /** The character a `\uXXXX` escape denotes; a surrogate code unit, which
      only a surrogate pair would make sense of, is refused. */
  function CodeUnit(a: char, b: char, c: char, d: char): Option<char> {
    match (HexValue(a), HexValue(b), HexValue(c), HexValue(d))
    case (Some(x), Some(y), Some(z), Some(w)) =>
      var v := 4096 * x + 256 * y + 16 * z + w;
      if 0xD800 <= v < 0xE000 then None else Some(v as char)
    case _ => None
  }

  /** Reads the inside of a string literal up to its closing quote: the text
      it denotes and what follows the quote, or nothing when the literal is
      malformed (an unknown escape, a raw control character, no closing
      quote). */
  function ReadChars(s: string): Option<(string, string)>
    decreases |s|
  {
    if s == [] then None
    else if s[0] == '"' then Some(("", s[1..]))
    else if s[0] < ' ' then None
    else if s[0] != '\\' then Cons(s[0], ReadChars(s[1..]))
    else if |s| < 2 then None
    else
      var e := s[1];
      if e == '"' || e == '\\' || e == '/' then Cons(e, ReadChars(s[2..]))
      else if e == 'b' then Cons('\U{0008}', ReadChars(s[2..]))
      else if e == 'f' then Cons('\U{000C}', ReadChars(s[2..]))
      else if e == 'n' then Cons('\n', ReadChars(s[2..]))
      else if e == 'r' then Cons('\r', ReadChars(s[2..]))
      else if e == 't' then Cons('\t', ReadChars(s[2..]))
      else if e == 'u' && |s| >= 6 then
        match CodeUnit(s[2], s[3], s[4], s[5])
        case None => None
        case Some(c) => Cons(c, ReadChars(s[6..]))
      else None
  }

  /** Reads one string literal at the start of `s`. */
  function ReadString(s: string): Option<(string, string)> {
    if s != [] && s[0] == '"' then ReadChars(s[1..]) else None
  }

  /** Reading a `\u00xx` escape gives the control character back. */
  lemma ReadUnicodeEscape(c: char, s: string)
    requires c < ' '
    ensures ReadChars(['\\', 'u', '0', '0', HexDigit(c as int / 16), HexDigit(c as int % 16)] + s) == Cons(c, ReadChars(s))
  {
    var e := ['\\', 'u', '0', '0', HexDigit(c as int / 16), HexDigit(c as int % 16)];
    assert (e + s)[6..] == s;
    assert (e + s)[..6] == e;
    assert CodeUnit('0', '0', HexDigit(c as int / 16), HexDigit(c as int % 16)) == Some(c);
  }

  /** Reading a two-character escape `\e` gives `c` back. */
  lemma ReadShortEscape(e: char, c: char, s: string)
    requires e == '"' || e == '\\' || e == 'b' || e == 'f' || e == 'n' || e == 'r' || e == 't'
    requires c == (if e == 'b' then '\U{0008}' else if e == 'f' then '\U{000C}' else if e == 'n' then '\n'
                   else if e == 'r' then '\r' else if e == 't' then '\t' else e)
    ensures ReadChars(['\\', e] + s) == Cons(c, ReadChars(s))
  {
    assert (['\\', e] + s)[2..] == s;
  }

  /** Reading the escape of a character gives the character back. */
  lemma ReadEscapedChar(c: char, s: string)
    ensures ReadChars(EscapeChar(c) + s) == Cons(c, ReadChars(s))
  {
    if c == '"' || c == '\\' {
      ReadShortEscape(c, c, s);
    } else if c == '\U{0008}' {
      ReadShortEscape('b', c, s);
    } else if c == '\U{000C}' {
      ReadShortEscape('f', c, s);
    } else if c == '\n' {
      ReadShortEscape('n', c, s);
    } else if c == '\r' {
      ReadShortEscape('r', c, s);
    } else if c == '\t' {
      ReadShortEscape('t', c, s);
    } else if c < ' ' {
      ReadUnicodeEscape(c, s);
    } else {
      assert ([c] + s)[1..] == s;
    }
  }

  /** Reading an escaped text followed by the closing quote gives the text
      and what follows the quote. */
  lemma {:induction false} ReadCharsEscaped(x: string, rest: string)
    ensures ReadChars(Escape(x) + "\"" + rest) == Some((x, rest))
  {
    if x == [] {
      assert Escape(x) + "\"" + rest == "\"" + rest;
      assert ("\"" + rest)[1..] == rest;
    } else {
      var tail := Escape(x[1..]) + "\"" + rest;
      assert Escape(x) + "\"" + rest == EscapeChar(x[0]) + tail;
      ReadEscapedChar(x[0], tail);
      ReadCharsEscaped(x[1..], rest);
      assert [x[0]] + x[1..] == x;
    }
  }

  /** A string literal reads back as its text. */
  lemma ReadQuoted(x: string, rest: string)
    ensures ReadString(Quote(x) + rest) == Some((x, rest))
  {
    var q := Quote(x) + rest;
    assert q[1..] == Escape(x) + "\"" + rest;
    ReadCharsEscaped(x, rest);
  }

  /** The members `"k":"v"` of an object, separated by commas. */
  function EncodeFields(keys: seq<string>, vals: seq<string>): string
    requires |keys| == |vals|
  {
    if keys == [] then ""
    else Quote(keys[0]) + ":" + Quote(vals[0]) + (if |keys| == 1 then "" else "," + EncodeFields(keys[1..], vals[1..]))
  }

  /** `JSON.stringify` of an object with the given string members, in order. */
  function Stringify(keys: seq<string>, vals: seq<string>): (s: string)
    requires |keys| == |vals|
    ensures |s| >= 2 && s[0] == '{'
  {
    "{" + EncodeFields(keys, vals) + "}"
  }

  /** Consumes the literal `lit` at the start of `s`. */
  function Expect(lit: string, s: string): Option<string> {
    if lit <= s then Some(s[|lit|..]) else None
  }

  /** Reads one member `"key":"value"` whose key is `key`: its value and
      what follows it. */
  function ReadMember(key: string, s: string): Option<(string, string)> {
    match ReadString(s)
    case None => None
    case Some((k, s1)) =>
      if k != key then None
      else
        match Expect(":", s1)
        case None => None
        case Some(s2) => ReadString(s2)
  }

  /** Reads the members of an object whose keys are `keys`, in that order:
      their values and what follows the last one. */
  function DecodeFields(keys: seq<string>, s: string): (r: Option<(seq<string>, string)>)
    ensures r.Some? ==> |r.value.0| == |keys|
    decreases |keys|
  {
    if keys == [] then Some(([], s))
    else
      match ReadMember(keys[0], s)
      case None => None
      case Some((v, s3)) =>
        if |keys| == 1 then Some(([v], s3))
        else
          match Expect(",", s3)
          case None => None
          case Some(s4) =>
            match DecodeFields(keys[1..], s4)
            case None => None
            case Some((vs, s5)) => Some(([v] + vs, s5))
  }

  /** `JSON.parse` of an object text holding exactly `keys`, in that order, as
      string members: their values, or nothing for any other text. */
  function Parse(keys: seq<string>, s: string): (r: Option<seq<string>>)
    ensures r.Some? ==> |r.value| == |keys|
  {
    match Expect("{", s)
    case None => None
    case Some(s1) =>
      match DecodeFields(keys, s1)
      case None => None
      case Some((vals, s2)) => if s2 == "}" then Some(vals) else None
  }

  lemma ExpectPrefix(lit: string, rest: string)
    ensures Expect(lit, lit + rest) == Some(rest)
  {
    assert lit <= lit + rest;
    assert (lit + rest)[|lit|..] == rest;
  }

  /** A written member reads back as its value. */
  lemma ReadMemberEncoded(k: string, v: string, rest: string)
    ensures ReadMember(k, Quote(k) + ":" + Quote(v) + rest) == Some((v, rest))
  {
    var s2 := Quote(v) + rest;
    var s1 := ":" + s2;
    assert Quote(k) + ":" + Quote(v) + rest == Quote(k) + s1;
    ReadQuoted(k, s1);
    ExpectPrefix(":", s2);
    ReadQuoted(v, rest);
  }

  /** Reading the encoded members gives the values and the text after them. */
  lemma {:induction false} DecodeEncoded(keys: seq<string>, vals: seq<string>, rest: string)
    requires |keys| == |vals|
    ensures DecodeFields(keys, EncodeFields(keys, vals) + rest) == Some((vals, rest))
  {
    if keys == [] {
      assert EncodeFields(keys, vals) + rest == rest;
    } else if |keys| == 1 {
      assert EncodeFields(keys, vals) + rest == Quote(keys[0]) + ":" + Quote(vals[0]) + rest;
      ReadMemberEncoded(keys[0], vals[0], rest);
      assert [vals[0]] == vals;
    } else {
      var s4 := EncodeFields(keys[1..], vals[1..]) + rest;
      assert EncodeFields(keys, vals) + rest == Quote(keys[0]) + ":" + Quote(vals[0]) + ("," + s4);
      ReadMemberEncoded(keys[0], vals[0], "," + s4);
      ExpectPrefix(",", s4);
      DecodeEncoded(keys[1..], vals[1..], rest);
      assert [vals[0]] + vals[1..] == vals;
    }
  }

  /** Parsing what stringify wrote gives the values back. */
  lemma ParseStringify(keys: seq<string>, vals: seq<string>)
    requires |keys| == |vals|
    ensures Parse(keys, Stringify(keys, vals)) == Some(vals)
  {
    var body := EncodeFields(keys, vals) + "}";
    assert Stringify(keys, vals) == "{" + body;
    ExpectPrefix("{", body);
    DecodeEncoded(keys, vals, "}");
  }
}
