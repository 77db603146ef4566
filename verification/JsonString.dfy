/** JSON string literals (RFC 8259, section 7), as an encoder writes them and a strict decoder reads them. */
module JsonString {
  import opened Options

  function HexDigit(d: nat): char
    requires d < 16
  {
    if d < 10 then ('0' as int + d) as char else ('a' as int + d - 10) as char
  }

  function HexValue(c: char): Option<nat> {
    if '0' <= c <= '9' then Some(c as int - '0' as int)
    else if 'a' <= c <= 'f' then Some(c as int - 'a' as int + 10)
    else if 'A' <= c <= 'F' then Some(c as int - 'A' as int + 10)
    else None
  }

  /** One character inside a literal: quotes, backslashes and control characters are escaped. */
  function Escaped(c: char): string {
    match c
    case '\"' => "\\\""
    case '\\' => "\\\\"
    case '\U{0008}' => "\\b"
    case '\U{000C}' => "\\f"
    case '\n' => "\\n"
    case '\r' => "\\r"
    case '\t' => "\\t"
    case _ => if c as int < 0x20 then "\\u00" + [HexDigit(c as int / 16), HexDigit(c as int % 16)] else [c]
  }

  function EscapedAll(s: string): string {
    if s == [] then [] else Escaped(s[0]) + EscapedAll(s[1..])
  }

  function Encode(s: string): string {
    "\"" + EscapedAll(s) + "\""
  }

  // ---------- decoding ----------

  predicate IsJsonSpace(c: char) {
    c == ' ' || c == '\t' || c == '\n' || c == '\r'
  }

  function SkipSpace(s: string): string {
    if s != [] && IsJsonSpace(s[0]) then SkipSpace(s[1..]) else s
  }

  /** Four hexadecimal digits at the front of the text. */
  function CodeUnit(s: string): Option<nat> {
    if |s| < 4 then None
    else
      var a, b, c, d := HexValue(s[0]), HexValue(s[1]), HexValue(s[2]), HexValue(s[3]);
      if a.Some? && b.Some? && c.Some? && d.Some? then Some(((a.value * 16 + b.value) * 16 + c.value) * 16 + d.value) else None
  }

  /** A character and what follows it. */
  type Step = Option<(char, string)>

  /** A scalar value from a `\u` escape; a high surrogate needs a low one after it. */
  function UnicodeEscape(s: string): Step {
    var unit := CodeUnit(s);
    if unit.None? then None
    else if unit.value < 0xD800 || unit.value >= 0xE000 then
      if unit.value < 0x1_0000 then Some((unit.value as char, s[4..])) else None
    else if unit.value >= 0xDC00 then None
    else if |s| < 6 || s[4] != '\\' || s[5] != 'u' then None
    else
      var low := CodeUnit(s[6..]);
      if low.None? || low.value < 0xDC00 || low.value >= 0xE000 then None
      else Some((((unit.value - 0xD800) * 0x400 + (low.value - 0xDC00) + 0x1_0000) as char, s[10..]))
  }

  /** What follows a backslash. */
  function Unescape(s: string): Step {
    if s == [] then None
    else
      match s[0]
      case '\"' => Some(('\"', s[1..]))
      case '\\' => Some(('\\', s[1..]))
      case '/' => Some(('/', s[1..]))
      case 'b' => Some(('\U{0008}', s[1..]))
      case 'f' => Some(('\U{000C}', s[1..]))
      case 'n' => Some(('\n', s[1..]))
      case 'r' => Some(('\r', s[1..]))
      case 't' => Some(('\t', s[1..]))
      case 'u' => UnicodeEscape(s[1..])
      case _ => None
  }

  /** The characters up to the closing quote, and what follows it. */
  function Body(s: string): Option<(string, string)> {
    if s == [] then None
    else if s[0] == '\"' then Some(([], s[1..]))
    else if s[0] as int < 0x20 then None
    else
      var step := if s[0] == '\\' then Unescape(s[1..]) else Some((s[0], s[1..]));
      if step.None? || |step.value.1| >= |s| then None
      else
        var rest := Body(step.value.1);
        if rest.None? then None else Some(([step.value.0] + rest.value.0, rest.value.1))
  }

  /** The string a JSON text denotes; nothing when it is not exactly one string literal. */
  function Decode(text: string): Option<string> {
    var s := SkipSpace(text);
    if s == [] || s[0] != '\"' then None
    else
      var body := Body(s[1..]);
      if body.Some? && SkipSpace(body.value.1) == [] then Some(body.value.0) else None
  }

  /** A step undoes the escape of one character. */
  lemma StepEscaped(c: char, rest: string)
    ensures var s := Escaped(c) + rest;
            && s != [] && s[0] != '\"' && s[0] as int >= 0x20
            && (if s[0] == '\\' then Unescape(s[1..]) else Some((s[0], s[1..]))) == Some((c, rest))
  {
    var s := Escaped(c) + rest;
    assert s[|Escaped(c)|..] == rest;
    if Escaped(c) == [c] {
      assert s[1..] == rest;
    } else if |Escaped(c)| == 2 {
      assert s[1..][1..] == rest;
    } else {
      ControlEscape(c, rest);
    }
  }

  lemma ControlEscape(c: char, rest: string)
    requires c as int < 0x20
    ensures var digits := ['0', '0', HexDigit(c as int / 16), HexDigit(c as int % 16)];
            UnicodeEscape(digits + rest) == Some((c, rest))
  {
    var digits := ['0', '0', HexDigit(c as int / 16), HexDigit(c as int % 16)];
    assert CodeUnit(digits + rest) == Some(c as int);
    assert (digits + rest)[4..] == rest;
  }

  lemma {:induction false} BodyEscaped(s: string, rest: string)
    ensures Body(EscapedAll(s) + "\"" + rest) == Some((s, rest))
  {
    if s != [] {
      var tail := EscapedAll(s[1..]) + "\"" + rest;
      assert EscapedAll(s) + "\"" + rest == Escaped(s[0]) + tail;
      StepEscaped(s[0], tail);
      BodyEscaped(s[1..], rest);
      assert [s[0]] + s[1..] == s;
    }
  }

  /** Decoding gives back every encoded string. */
  lemma DecodeEncoded(s: string)
    ensures Decode(Encode(s)) == Some(s)
  {
    BodyEscaped(s, "");
    var text := Encode(s);
    assert SkipSpace(text) == text;
    assert text[1..] == EscapedAll(s) + "\"" + "";
  }

  /** A literal has no line break and no other control character in it. */
  lemma {:induction false} EncodedIsPrintable(s: string, i: nat)
    requires i < |EscapedAll(s)|
    ensures EscapedAll(s)[i] as int >= 0x20
  {
    if i < |Escaped(s[0])| {
      assert EscapedAll(s)[i] == Escaped(s[0])[i];
    } else {
      EncodedIsPrintable(s[1..], i - |Escaped(s[0])|);
    }
  }
}
