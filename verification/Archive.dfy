/** Archived turns as files: front matter and body, written and read back. */
module Archive {
  import opened Decimal
  import opened JsonString
  import opened Options
  import opened TextScan
  import opened Unicode

  datatype Turn = Turn(
    sessionId: string,
    number: nat,
    timestampMs: int,
    role: string,
    content: string,
    lesson: Option<string>,
    toolCallsJson: Option<string>,
    costMicrodollars: nat
  )

  /** The numbers fit their machine types. */
  predicate Representable(t: Turn) {
    t.number < U32_LIMIT && -I64_LIMIT <= t.timestampMs < I64_LIMIT && t.costMicrodollars < U64_LIMIT
  }

  const DEFAULT_TURN := Turn("", 0, 0, "", "", None, None, 0)

  // ---------- writing ----------

  function Field(key: string, value: string): string {
    key + ": " + value
  }

  /** The front-matter lines of a turn. */
  function Header(t: Turn): seq<string> {
    [Field("session_id", Encode(t.sessionId)),
     Field("seq", PrintNat(t.number)),
     Field("timestamp_ms", PrintInt(t.timestampMs)),
     Field("role", Encode(t.role)),
     Field("cost_microdollars", PrintNat(t.costMicrodollars))]
    + (if t.lesson.Some? then [Field("lesson", Encode(t.lesson.value))] else [])
    + (if t.toolCallsJson.Some? then [Field("tool_calls_json", Encode(t.toolCallsJson.value))] else [])
  }

  /** Lines, each with its line feed. */
  function Terminated(lines: seq<string>): string {
    if lines == [] then [] else Terminated(lines[..|lines| - 1]) + lines[|lines| - 1] + "\n"
  }

  function BodyText(content: string): string {
    if content != [] && content[|content| - 1] == '\n' then content else content + "\n"
  }

  function Composed(t: Turn): string {
    "---\n" + Terminated(Header(t)) + "---\n\n" + BodyText(t.content)
  }

  method ComposeTurn(t: Turn) returns (text: string)
    ensures text == Composed(t)
  {
    hide Encode, PrintNat, PrintInt, BodyText, Field, Terminated;
    var yaml := "";
    yaml := yaml + Field("session_id", Encode(t.sessionId)) + "\n";
    yaml := yaml + Field("seq", PrintNat(t.number)) + "\n";
    yaml := yaml + Field("timestamp_ms", PrintInt(t.timestampMs)) + "\n";
    yaml := yaml + Field("role", Encode(t.role)) + "\n";
    yaml := yaml + Field("cost_microdollars", PrintNat(t.costMicrodollars)) + "\n";
    FiveLines(Field("session_id", Encode(t.sessionId)), Field("seq", PrintNat(t.number)), Field("timestamp_ms", PrintInt(t.timestampMs)),
              Field("role", Encode(t.role)), Field("cost_microdollars", PrintNat(t.costMicrodollars)));
    ghost var lines := [Field("session_id", Encode(t.sessionId)), Field("seq", PrintNat(t.number)), Field("timestamp_ms", PrintInt(t.timestampMs)),
                        Field("role", Encode(t.role)), Field("cost_microdollars", PrintNat(t.costMicrodollars))];
    assert yaml == Terminated(lines);
    if t.lesson.Some? {
      var line := Field("lesson", Encode(t.lesson.value));
      TerminatedAppend(lines, line);
      yaml := yaml + line + "\n";
      lines := lines + [line];
    }
    if t.toolCallsJson.Some? {
      var line := Field("tool_calls_json", Encode(t.toolCallsJson.value));
      TerminatedAppend(lines, line);
      yaml := yaml + line + "\n";
      lines := lines + [line];
    }
    assert lines == Header(t);
    text := "---\n" + yaml + "---\n\n" + BodyText(t.content);
  }

  lemma TerminatedAppend(lines: seq<string>, line: string)
    ensures Terminated(lines + [line]) == Terminated(lines) + line + "\n"
  {
    assert (lines + [line])[..|lines|] == lines;
  }

  lemma FiveLines(a: string, b: string, c: string, d: string, e: string)
    ensures Terminated([a, b, c, d, e]) == a + "\n" + b + "\n" + c + "\n" + d + "\n" + e + "\n"
  {
    hide Terminated;
    var none: seq<string> := [];
    TerminatedNone();
    TerminatedAppend(none, a);
    assert none + [a] == [a];
    TerminatedAppend([a], b);
    assert [a] + [b] == [a, b];
    TerminatedAppend([a, b], c);
    assert [a, b] + [c] == [a, b, c];
    TerminatedAppend([a, b, c], d);
    assert [a, b, c] + [d] == [a, b, c, d];
    TerminatedAppend([a, b, c, d], e);
    assert [a, b, c, d] + [e] == [a, b, c, d, e];
  }

  lemma TerminatedNone()
    ensures Terminated([]) == ""
  {
  }

  // ---------- reading ----------

  /** A quoted scalar is decoded, anything else is taken as it is. */
  function Unquoted(v: string): string {
    GetOr(Decode(v), v)
  }

  /** The turn after one front-matter line; lines without a colon and unknown keys are skipped. */
  function ReadLine(t: Turn, line: string): Turn {
    var parts := SplitOnce(line, ':');
    if parts.None? then t
    else
      var k, v := Trim(parts.value.0), Unquoted(Trim(parts.value.1));
      if k == "session_id" then t.(sessionId := v)
      else if k == "seq" then t.(number := GetOr(ParseUnsigned(v, U32_LIMIT), 0))
      else if k == "timestamp_ms" then t.(timestampMs := GetOr(ParseI64(v), 0))
      else if k == "role" then t.(role := v)
      else if k == "cost_microdollars" then t.(costMicrodollars := GetOr(ParseUnsigned(v, U64_LIMIT), 0))
      else if k == "lesson" then t.(lesson := Some(v))
      else if k == "tool_calls_json" then t.(toolCallsJson := Some(v))
      else t
  }

  function ReadLines(t: Turn, lines: seq<string>): Turn {
    if lines == [] then t else ReadLine(ReadLines(t, lines[..|lines| - 1]), lines[|lines| - 1])
  }

  function Parsed(text: string): Option<Turn> {
    var inside := StripPrefix(text, "---\n");
    if inside.None? then None
    else
      var end := Find(inside.value, "\n---\n", 0);
      if end.None? then None
      else
        var body := inside.value[end.value + 5..];
        Some(ReadLines(DEFAULT_TURN, Lines(inside.value[..end.value]))
               .(content := TrimEnd(GetOr(StripPrefix(body, "\n"), body))))
  }

  method ParseTurn(text: string) returns (turn: Option<Turn>)
    ensures turn == Parsed(text)
  {
    var inside := StripPrefix(text, "---\n");
    if inside.None? {
      return None;
    }
    var end := Find(inside.value, "\n---\n", 0);
    if end.None? {
      return None;
    }
    var yaml, body := inside.value[..end.value], inside.value[end.value + 5..];
    var t := DEFAULT_TURN;
    var lines := Lines(yaml);
    hide Trim, Decode, ParseUnsigned, ParseI64, Lines;
    for i := 0 to |lines|
      invariant t == ReadLines(DEFAULT_TURN, lines[..i])
    {
      assert lines[..i + 1][..i] == lines[..i];
      var parts := SplitOnce(lines[i], ':');
      if parts.None? {
        continue;
      }
      var k, v := Trim(parts.value.0), Unquoted(Trim(parts.value.1));
      if k == "session_id" {
        t := t.(sessionId := v);
      } else if k == "seq" {
        t := t.(number := GetOr(ParseUnsigned(v, U32_LIMIT), 0));
      } else if k == "timestamp_ms" {
        t := t.(timestampMs := GetOr(ParseI64(v), 0));
      } else if k == "role" {
        t := t.(role := v);
      } else if k == "cost_microdollars" {
        t := t.(costMicrodollars := GetOr(ParseUnsigned(v, U64_LIMIT), 0));
      } else if k == "lesson" {
        t := t.(lesson := Some(v));
      } else if k == "tool_calls_json" {
        t := t.(toolCallsJson := Some(v));
      }
    }
    assert lines[..|lines|] == lines;
    turn := Some(t.(content := TrimEnd(GetOr(StripPrefix(body, "\n"), body))));
  }

  // ---------- round trip ----------

  /** A line that cannot be mistaken for a delimiter or for two lines. */
  predicate PlainLine(line: string) {
    line != [] && line[0] != '-' && OneLine(line)
  }

  /** Neither end of the value is white space. */
  predicate Tight(value: string) {
    value != [] && !IsWhitespace(value[0]) && !IsWhitespace(value[|value| - 1])
  }

  lemma TightTrim(value: string)
    requires Tight(value)
    ensures Trim(value) == value && Trim(" " + value) == value
  {
    assert (" " + value)[1..] == value;
  }

  /** Reading a field finds its key and its value again. */
  lemma FieldParts(key: string, value: string)
    requires Tight(key) && Tight(value) && forall i :: 0 <= i < |key| ==> key[i] != ':'
    ensures SplitOnce(Field(key, value), ':') == Some((key, " " + value))
    ensures Trim(key) == key && Trim(" " + value) == value
  {
    var line := Field(key, value);
    FirstIndexIs(line, ':', |key|);
    assert line[..|key|] == key && line[|key| + 1..] == " " + value;
    TightTrim(key);
    TightTrim(value);
  }

  lemma EncodedValue(s: string)
    ensures Tight(Encode(s)) && Unquoted(Encode(s)) == s && OneLine(Encode(s))
  {
    DecodeEncoded(s);
    forall i | 0 <= i < |Encode(s)| ensures Encode(s)[i] as int >= 0x20 {
      if 0 < i < |Encode(s)| - 1 {
        EncodedIsPrintable(s, i - 1);
      }
    }
  }

  lemma NumberValue(v: string)
    requires v != [] && forall i :: 0 <= i < |v| ==> IsDigit(v[i]) || v[i] == '-'
    ensures Tight(v) && Unquoted(v) == v && OneLine(v)
  {
    assert forall i :: 0 <= i < |v| ==> !IsWhitespace(v[i]);
  }

  lemma ReadEncoded(t: Turn, s: string)
    ensures ReadLine(t, Field("session_id", Encode(s))) == t.(sessionId := s)
    ensures ReadLine(t, Field("role", Encode(s))) == t.(role := s)
    ensures ReadLine(t, Field("lesson", Encode(s))) == t.(lesson := Some(s))
    ensures ReadLine(t, Field("tool_calls_json", Encode(s))) == t.(toolCallsJson := Some(s))
    ensures PlainLine(Field("session_id", Encode(s))) && PlainLine(Field("role", Encode(s)))
    ensures PlainLine(Field("lesson", Encode(s))) && PlainLine(Field("tool_calls_json", Encode(s)))
  {
    hide Encode, Decode, SplitOnce, Trim, Unquoted;
    EncodedValue(s);
    FieldParts("session_id", Encode(s));
    FieldParts("role", Encode(s));
    FieldParts("lesson", Encode(s));
    FieldParts("tool_calls_json", Encode(s));
  }

  lemma PrintIntChars(n: int)
    ensures PrintInt(n) != [] && forall i :: 0 <= i < |PrintInt(n)| ==> IsDigit(PrintInt(n)[i]) || PrintInt(n)[i] == '-'
  {
  }

  lemma ReadNumber(r: Turn, n: nat)
    ensures n < U32_LIMIT ==> ReadLine(r, Field("seq", PrintNat(n))) == r.(number := n)
    ensures n < U64_LIMIT ==> ReadLine(r, Field("cost_microdollars", PrintNat(n))) == r.(costMicrodollars := n)
    ensures PlainLine(Field("seq", PrintNat(n))) && PlainLine(Field("cost_microdollars", PrintNat(n)))
  {
    hide PrintNat, ParseUnsigned, SplitOnce, Trim, Unquoted;
    NumberValue(PrintNat(n));
    FieldParts("seq", PrintNat(n));
    FieldParts("cost_microdollars", PrintNat(n));
    if n < U32_LIMIT {
      UnsignedRoundTrip(n, U32_LIMIT);
    }
    if n < U64_LIMIT {
      UnsignedRoundTrip(n, U64_LIMIT);
    }
  }

  lemma ReadTimestamp(r: Turn, n: int)
    requires -I64_LIMIT <= n < I64_LIMIT
    ensures ReadLine(r, Field("timestamp_ms", PrintInt(n))) == r.(timestampMs := n)
    ensures PlainLine(Field("timestamp_ms", PrintInt(n)))
  {
    hide PrintInt, ParseI64, SplitOnce, Trim, Unquoted;
    PrintIntChars(n);
    NumberValue(PrintInt(n));
    FieldParts("timestamp_ms", PrintInt(n));
    SignedRoundTrip(n);
  }

  lemma ReadNumbers(t: Turn, r: Turn)
    requires Representable(t)
    ensures ReadLine(r, Field("seq", PrintNat(t.number))) == r.(number := t.number)
    ensures ReadLine(r, Field("timestamp_ms", PrintInt(t.timestampMs))) == r.(timestampMs := t.timestampMs)
    ensures ReadLine(r, Field("cost_microdollars", PrintNat(t.costMicrodollars))) == r.(costMicrodollars := t.costMicrodollars)
    ensures PlainLine(Field("seq", PrintNat(t.number))) && PlainLine(Field("timestamp_ms", PrintInt(t.timestampMs)))
    ensures PlainLine(Field("cost_microdollars", PrintNat(t.costMicrodollars)))
  {
    hide ReadLine, PrintNat, PrintInt, Field, PlainLine;
    ReadNumber(r, t.number);
    ReadNumber(r, t.costMicrodollars);
    ReadTimestamp(r, t.timestampMs);
  }

  lemma ReadLinesAppend(t: Turn, lines: seq<string>, line: string)
    ensures ReadLines(t, lines + [line]) == ReadLine(ReadLines(t, lines), line)
  {
    assert (lines + [line])[..|lines|] == lines;
  }

  /** The mandatory lines set their five fields. */
  lemma ReadFive(t: Turn)
    requires Representable(t)
    ensures ReadLines(DEFAULT_TURN, Header(t)[..5]) == t.(content := "", lesson := None, toolCallsJson := None)
  {
    hide ReadLine, Encode, PrintNat, PrintInt, Field, Representable;
    var h := Header(t);
    var t1 := ReadLine(DEFAULT_TURN, h[0]);
    var t2 := ReadLine(t1, h[1]);
    var t3 := ReadLine(t2, h[2]);
    var t4 := ReadLine(t3, h[3]);
    ReadEncoded(DEFAULT_TURN, t.sessionId);
    ReadNumbers(t, t1);
    ReadNumbers(t, t2);
    ReadEncoded(t3, t.role);
    ReadNumbers(t, t4);
    ReadOneToFive(h[..5]);
  }

  lemma ReadOneToFive(h: seq<string>)
    requires |h| == 5
    ensures ReadLines(DEFAULT_TURN, h)
         == ReadLine(ReadLine(ReadLine(ReadLine(ReadLine(DEFAULT_TURN, h[0]), h[1]), h[2]), h[3]), h[4])
  {
    hide ReadLine;
    assert h[..4][..3] == h[..3] && h[..3][..2] == h[..2] && h[..2][..1] == h[..1] && h[..1][..0] == [];
    assert ReadLines(DEFAULT_TURN, h[..1]) == ReadLine(DEFAULT_TURN, h[0]);
    assert ReadLines(DEFAULT_TURN, h[..2]) == ReadLine(ReadLines(DEFAULT_TURN, h[..1]), h[1]);
    assert ReadLines(DEFAULT_TURN, h[..3]) == ReadLine(ReadLines(DEFAULT_TURN, h[..2]), h[2]);
    assert ReadLines(DEFAULT_TURN, h[..4]) == ReadLine(ReadLines(DEFAULT_TURN, h[..3]), h[3]);
  }

  /** Reading the header gives every field but the content. */
  lemma ReadHeader(t: Turn)
    requires Representable(t)
    ensures ReadLines(DEFAULT_TURN, Header(t)) == t.(content := "")
    ensures forall i :: 0 <= i < |Header(t)| ==> PlainLine(Header(t)[i])
  {
    hide ReadLine, ReadLines, Encode, PrintNat, PrintInt, Field, PlainLine, Representable;
    ReadFive(t);
    ReadEncoded(DEFAULT_TURN, t.sessionId);
    ReadEncoded(DEFAULT_TURN, t.role);
    ReadNumbers(t, DEFAULT_TURN);
    var h := Header(t);
    var five := h[..5];
    var t5 := ReadLines(DEFAULT_TURN, five);
    var withLesson := if t.lesson.Some? then five + [Field("lesson", Encode(t.lesson.value))] else five;
    var t6 := ReadLines(DEFAULT_TURN, withLesson);
    if t.lesson.Some? {
      ReadLinesAppend(DEFAULT_TURN, five, Field("lesson", Encode(t.lesson.value)));
      ReadEncoded(t5, t.lesson.value);
    }
    if t.toolCallsJson.Some? {
      ReadLinesAppend(DEFAULT_TURN, withLesson, Field("tool_calls_json", Encode(t.toolCallsJson.value)));
      ReadEncoded(t6, t.toolCallsJson.value);
      assert h == withLesson + [Field("tool_calls_json", Encode(t.toolCallsJson.value))];
    } else {
      assert h == withLesson;
    }
  }

  /** The lines, with a line feed between each two. */
  function Joined(lines: seq<string>): string
    requires lines != []
  {
    Terminated(lines[..|lines| - 1]) + lines[|lines| - 1]
  }

  lemma {:induction false} TerminatedCons(line: string, rest: seq<string>)
    ensures Terminated([line] + rest) == line + "\n" + Terminated(rest)
  {
    if rest == [] {
      assert [line] + rest == [line] && [line][..0] == [];
    } else {
      TerminatedCons(line, rest[..|rest| - 1]);
      assert ([line] + rest)[..|rest|] == [line] + rest[..|rest| - 1];
    }
  }

  lemma {:induction false} LinesOfJoined(lines: seq<string>)
    requires lines != [] && forall i :: 0 <= i < |lines| ==> PlainLine(lines[i])
    ensures Lines(Joined(lines)) == lines
  {
    hide Lines, PlainLine, OneLine;
    PlainIsOneLine(lines[0]);
    if |lines| == 1 {
      TerminatedNone();
      assert lines[..0] == [] && Joined(lines) == lines[0];
      LinesCons(lines[0], "");
    } else {
      var rest := lines[1..];
      LinesOfJoined(rest);
      TerminatedCons(lines[0], rest[..|rest| - 1]);
      assert lines[..|lines| - 1] == [lines[0]] + rest[..|rest| - 1];
      assert Joined(lines) == lines[0] + "\n" + Joined(rest);
      LinesCons(lines[0], Joined(rest));
    }
  }

  lemma PlainIsOneLine(line: string)
    requires PlainLine(line)
    ensures OneLine(line) && line != []
  {
  }

  /** In terminated plain lines no line feed is followed by a dash. */
  lemma {:induction false} NoDelimiterInside(lines: seq<string>, i: nat)
    requires forall k :: 0 <= k < |lines| ==> PlainLine(lines[k])
    requires i < |Terminated(lines)| - 1 && Terminated(lines)[i] == '\n'
    ensures Terminated(lines)[i + 1] != '-'
  {
    var front, last := lines[..|lines| - 1], lines[|lines| - 1];
    assert forall j :: 0 <= j < |last| ==> Terminated(lines)[|Terminated(front)| + j] == last[j];
    if i < |Terminated(front)| - 1 {
      NoDelimiterInside(front, i);
    }
  }

  lemma TerminatedJoined(lines: seq<string>)
    requires lines != []
    ensures Terminated(lines) == Joined(lines) + "\n"
  {
  }

  /** The first delimiter of a composed file is the one that closes the header. */
  lemma DelimiterFound(lines: seq<string>, body: string)
    requires lines != [] && forall k :: 0 <= k < |lines| ==> PlainLine(lines[k])
    ensures var inside := Terminated(lines) + "---\n" + body;
            Find(inside, "\n---\n", 0) == Some(|Joined(lines)|)
            && inside[..|Joined(lines)|] == Joined(lines) && inside[|Joined(lines)| + 5..] == body
  {
    hide Terminated, Joined, PlainLine;
    var yaml, header := Joined(lines), Terminated(lines);
    var inside := header + "---\n" + body;
    TerminatedJoined(lines);
    assert inside == yaml + "\n---\n" + body;
    assert OccursAt(inside, "\n---\n", |yaml|);
    forall i | 0 <= i < |yaml| ensures !OccursAt(inside, "\n---\n", i) {
      if header[i] == '\n' {
        NoDelimiterInside(lines, i);
        NotAt(inside, i);
      } else {
        assert inside[i] != '\n';
        NotAt(inside, i);
      }
    }
  }

  lemma NotAt(s: string, i: nat)
    requires i + 1 < |s| && (s[i] != '\n' || s[i + 1] != '-')
    ensures !OccursAt(s, "\n---\n", i)
  {
    if i + 5 <= |s| {
      assert s[i..i + 5][0] == s[i] && s[i..i + 5][1] == s[i + 1];
    }
  }

  lemma BodyTrimmed(content: string)
    ensures TrimEnd(BodyText(content)) == TrimEnd(content)
  {
    TrimEndAppend(content, "\n");
  }

  /** Reading a written turn gives it back, with white space trimmed from the end of its content. */
  lemma ParseComposed(t: Turn)
    requires Representable(t)
    ensures Parsed(Composed(t)) == Some(t.(content := TrimEnd(t.content)))
  {
    hide Lines, ReadLines, Header, TrimEnd, Find, Terminated, BodyText, PlainLine, Joined, Representable;
    ReadHeader(t);
    HeaderNotEmpty(t);
    var body := "\n" + BodyText(t.content);
    DelimiterFound(Header(t), body);
    LinesOfJoined(Header(t));
    BodyTrimmed(t.content);
    var inside := Terminated(Header(t)) + "---\n" + body;
    assert Composed(t) == "---\n" + inside;
    assert Composed(t)[4..] == inside;
    assert body[1..] == BodyText(t.content);
  }

  lemma HeaderNotEmpty(t: Turn)
    ensures Header(t) != []
  {
  }
}
