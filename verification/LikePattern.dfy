/** The operand of the "content contains" filter, and what SQL LIKE makes of it. */
module LikePattern {
  const ESCAPE := '\\'

  predicate Special(c: char) {
    c == '\\' || c == '%' || c == '_'
  }

  function Escaped(value: string): string {
    if value == [] then []
    else Escaped(value[..|value| - 1]) + (if Special(value[|value| - 1]) then [ESCAPE] else []) + [value[|value| - 1]]
  }

  function ContainsPattern(value: string): string {
    "%" + Escaped(value) + "%"
  }

  method LikeContainsPattern(value: string) returns (pattern: string)
    ensures pattern == ContainsPattern(value)
  {
    pattern := "%";
    for i := 0 to |value|
      invariant pattern == "%" + Escaped(value[..i])
    {
      assert value[..i + 1][..i] == value[..i];
      if Special(value[i]) {
        pattern := pattern + [ESCAPE];
      }
      pattern := pattern + [value[i]];
    }
    assert value[..|value|] == value;
    pattern := pattern + "%";
  }

  // ---------- LIKE ----------

  /** Letters of the ASCII alphabet compare without case. */
  function AsciiLower(c: char): char {
    if 'A' <= c <= 'Z' then (c as int - 'A' as int + 'a' as int) as char else c
  }

  predicate SameChar(a: char, b: char) {
    AsciiLower(a) == AsciiLower(b)
  }

  /** LIKE with an escape character: `%` stands for any text, `_` for one character, an escaped character for itself. */
  predicate Like(pattern: string, text: string)
    decreases |pattern|
  {
    if pattern == [] then text == []
    else if pattern[0] == '%' then exists k :: 0 <= k <= |text| && Like(pattern[1..], text[k..])
    else if text == [] then false
    else if pattern[0] == '_' then Like(pattern[1..], text[1..])
    else if pattern[0] == ESCAPE then |pattern| > 1 && SameChar(pattern[1], text[0]) && Like(pattern[2..], text[1..])
    else SameChar(pattern[0], text[0]) && Like(pattern[1..], text[1..])
  }

  /** The value occurs at the position, up to ASCII case. */
  predicate OccursAt(text: string, value: string, at: nat) {
    at + |value| <= |text| && forall i :: 0 <= i < |value| ==> SameChar(value[i], text[at + i])
  }

  lemma AnyTail(text: string)
    ensures Like("%", text)
  {
    assert text[|text|..] == [] && "%"[1..] == [];
    assert Like("%"[1..], text[|text|..]);
  }

  lemma {:induction false} EscapedCons(c: char, rest: string)
    ensures Escaped([c] + rest) == (if Special(c) then [ESCAPE] else []) + [c] + Escaped(rest)
  {
    if rest == [] {
      assert [c] + rest == [c] && [c][..0] == [];
    } else {
      EscapedCons(c, rest[..|rest| - 1]);
      assert ([c] + rest)[..|rest|] == [c] + rest[..|rest| - 1];
    }
  }

  /** An escaped value followed by `%` matches exactly the texts that start with the value. */
  lemma {:induction false} EscapedMatchesPrefix(value: string, text: string)
    ensures Like(Escaped(value) + "%", text) <==> OccursAt(text, value, 0)
  {
    if value == [] {
      AnyTail(text);
      assert Escaped(value) + "%" == "%";
    } else {
      var c, rest := value[0], value[1..];
      assert value == [c] + rest;
      EscapedCons(c, rest);
      var tail := Escaped(rest) + "%";
      var pattern := Escaped(value) + "%";
      if Special(c) {
        assert pattern == [ESCAPE, c] + tail && pattern[2..] == tail;
      } else {
        assert pattern == [c] + tail && pattern[1..] == tail;
      }
      if text != [] {
        EscapedMatchesPrefix(rest, text[1..]);
        assert OccursAt(text, value, 0) <==> SameChar(c, text[0]) && OccursAt(text[1..], rest, 0) by {
          OccursShift(text, c, rest);
        }
      }
    }
  }

  lemma OccursShift(text: string, c: char, rest: string)
    requires text != []
    ensures OccursAt(text, [c] + rest, 0) <==> SameChar(c, text[0]) && OccursAt(text[1..], rest, 0)
  {
    var value := [c] + rest;
    if OccursAt(text, value, 0) {
      assert SameChar(value[0], text[0]);
      forall i | 0 <= i < |rest| ensures SameChar(rest[i], text[1..][i]) {
        assert SameChar(value[i + 1], text[i + 1]);
      }
    }
    if SameChar(c, text[0]) && OccursAt(text[1..], rest, 0) {
      forall i | 0 <= i < |value| ensures SameChar(value[i], text[i]) {
        if i > 0 {
          assert SameChar(rest[i - 1], text[1..][i - 1]);
        }
      }
    }
  }

  /** The filter keeps exactly the contents in which the value occurs, taken literally up to ASCII case. */
  lemma ContainsPatternMeaning(value: string, text: string)
    ensures Like(ContainsPattern(value), text) <==> exists at: nat :: OccursAt(text, value, at)
  {
    var pattern := ContainsPattern(value);
    assert pattern[1..] == Escaped(value) + "%";
    forall k | 0 <= k <= |text|
      ensures Like(pattern[1..], text[k..]) <==> OccursAt(text, value, k)
    {
      EscapedMatchesPrefix(value, text[k..]);
      OccursFrom(text, value, k);
    }
    if at: nat :| OccursAt(text, value, at) {
      assert Like(pattern[1..], text[at..]);
    }
  }

  lemma OccursFrom(text: string, value: string, k: nat)
    requires k <= |text|
    ensures OccursAt(text[k..], value, 0) <==> OccursAt(text, value, k)
  {
    assert forall i :: 0 <= i < |text| - k ==> text[k..][i] == text[k + i];
  }
}
