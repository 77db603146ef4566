/** The parts of Unicode text handling the program relies on: white space and UTF-8 lengths. */
module Unicode {
  /** Code points with the White_Space property. */
  predicate IsWhitespace(c: char) {
    var u := c as int;
    || 0x9 <= u <= 0xD || u == 0x20 || u == 0x85 || u == 0xA0 || u == 0x1680
    || 0x2000 <= u <= 0x200A || u == 0x2028 || u == 0x2029 || u == 0x202F || u == 0x205F || u == 0x3000
  }

  /** Number of bytes of a character in UTF-8. */
  function Utf8Len(c: char): nat {
    var u := c as int;
    if u < 0x80 then 1 else if u < 0x800 then 2 else if u < 0x1_0000 then 3 else 4
  }

  /** Number of bytes of a text in UTF-8. */
  function ByteLen(s: string): nat {
    if s == [] then 0 else ByteLen(s[..|s| - 1]) + Utf8Len(s[|s| - 1])
  }

  lemma NoBytes()
    ensures ByteLen("") == 0
  {
  }

  lemma {:induction false} ByteLenConcat(a: string, b: string)
    ensures ByteLen(a + b) == ByteLen(a) + ByteLen(b)
  {
    if b == [] {
      assert a + b == a;
    } else {
      ByteLenConcat(a, b[..|b| - 1]);
      assert (a + b)[..|a + b| - 1] == a + b[..|b| - 1];
    }
  }

  lemma {:induction false} ByteLenBounds(s: string)
    ensures |s| <= ByteLen(s) <= 4 * |s|
  {
    if s != [] {
      ByteLenBounds(s[..|s| - 1]);
    }
  }

  /** The maximal blocks without white space, in order. */
  function SplitWhitespace(s: string): (words: seq<string>)
    ensures forall i :: 0 <= i < |words| ==> words[i] != []
  {
    if s == [] then []
    else if IsWhitespace(s[|s| - 1]) then SplitWhitespace(s[..|s| - 1])
    else
      var start := WordStart(s);
      SplitWhitespace(s[..start]) + [s[start..]]
  }

  /** Start of the block without white space that ends the text. */
  function WordStart(s: string): (start: nat)
    requires s != [] && !IsWhitespace(s[|s| - 1])
    ensures start < |s| && forall i :: start <= i < |s| ==> !IsWhitespace(s[i])
    ensures start == 0 || IsWhitespace(s[start - 1])
  {
    if |s| == 1 || IsWhitespace(s[|s| - 2]) then |s| - 1 else WordStart(s[..|s| - 1])
  }

  /** The text without its white space. */
  function Visible(s: string): string {
    if s == [] then []
    else Visible(s[..|s| - 1]) + if IsWhitespace(s[|s| - 1]) then [] else [s[|s| - 1]]
  }

  lemma {:induction false} VisibleConcat(a: string, b: string)
    ensures Visible(a + b) == Visible(a) + Visible(b)
  {
    if b == [] {
      assert a + b == a;
    } else {
      VisibleConcat(a, b[..|b| - 1]);
      assert (a + b)[..|a + b| - 1] == a + b[..|b| - 1];
    }
  }

  /** A word of the text: no white space inside, and white space or an end of the text on both sides. */
  predicate WordAt(s: string, i: nat, j: nat) {
    && i < j <= |s| && (forall k :: i <= k < j ==> !IsWhitespace(s[k]))
    && (i == 0 || IsWhitespace(s[i - 1])) && (j == |s| || IsWhitespace(s[j]))
  }

  /** Words end no later than the block without white space that ends the text, and this one is the last. */
  lemma WordBeforeLast(s: string, i: nat, j: nat)
    requires s != [] && !IsWhitespace(s[|s| - 1])
    ensures var start := WordStart(s);
            WordAt(s, i, j) <==> (i == start && j == |s|) || WordAt(s[..start], i, j)
  {
    var start := WordStart(s);
    hide IsWhitespace, WordStart;
    if WordAt(s, i, j) {
      assert j == |s| || !(start <= j < |s|);
      assert i > start ==> !(start <= i - 1 < |s|);
      assert i <= start;
      if j == |s| {
        assert start == 0 || i >= start || !(i <= start - 1 < j);
      } else {
        assert forall k :: 0 <= k < start ==> s[..start][k] == s[k];
      }
    }
    if WordAt(s[..start], i, j) {
      assert forall k :: 0 <= k < start ==> s[..start][k] == s[k];
    }
  }

  lemma WordBeforeSpace(s: string, i: nat, j: nat)
    requires s != [] && IsWhitespace(s[|s| - 1])
    ensures WordAt(s, i, j) <==> WordAt(s[..|s| - 1], i, j)
  {
    var front := s[..|s| - 1];
    hide IsWhitespace;
    assert forall k :: 0 <= k < |front| ==> front[k] == s[k];
    if WordAt(s, i, j) {
      assert !IsWhitespace(s[j - 1]);
    }
  }

  /** Where words begin and end: one span after the other, each a word, and every word among them. */
  ghost predicate WordSpans(s: string, words: seq<string>, spans: seq<(nat, nat)>) {
    && |spans| == |words|
    && (forall k :: 0 <= k < |spans| ==> WordAt(s, spans[k].0, spans[k].1) && words[k] == s[spans[k].0..spans[k].1])
    && (forall k :: 0 < k < |spans| ==> spans[k - 1].1 <= spans[k].0)
    && (forall i: nat, j: nat :: WordAt(s, i, j) ==> (i, j) in spans)
  }

  /** The text is split into exactly its words, in order and each as often as it stands there. */
  lemma {:induction false} SplitsIntoWords(s: string) returns (spans: seq<(nat, nat)>)
    ensures WordSpans(s, SplitWhitespace(s), spans)
    decreases |s|
  {
    hide IsWhitespace, WordAt, WordSpans;
    if s == [] {
      spans := [];
      NoWords();
    } else if IsWhitespace(s[|s| - 1]) {
      spans := SplitsIntoWords(s[..|s| - 1]);
      SpansBeforeSpace(s, SplitWhitespace(s), spans);
    } else {
      var start := WordStart(s);
      var before := SplitsIntoWords(s[..start]);
      spans := before + [(start, |s|)];
      SpansBeforeLast(s, SplitWhitespace(s[..start]), before);
    }
  }

  lemma SpansInside(s: string, words: seq<string>, spans: seq<(nat, nat)>, n: nat)
    requires n <= |s| && WordSpans(s[..n], words, spans)
    ensures forall k :: 0 <= k < |spans| ==> spans[k].0 < spans[k].1 <= n && words[k] == s[spans[k].0..spans[k].1]
  {
    hide IsWhitespace;
    forall k | 0 <= k < |spans| ensures spans[k].0 < spans[k].1 <= n && words[k] == s[spans[k].0..spans[k].1] {
      assert WordAt(s[..n], spans[k].0, spans[k].1);
      assert s[..n][spans[k].0..spans[k].1] == s[spans[k].0..spans[k].1];
    }
  }

  lemma SpansBeforeSpace(s: string, words: seq<string>, spans: seq<(nat, nat)>)
    requires s != [] && IsWhitespace(s[|s| - 1]) && WordSpans(s[..|s| - 1], words, spans)
    ensures WordSpans(s, words, spans)
  {
    hide IsWhitespace, WordAt;
    SpansInside(s, words, spans, |s| - 1);
    forall i: nat, j: nat ensures WordAt(s, i, j) <==> WordAt(s[..|s| - 1], i, j) {
      WordBeforeSpace(s, i, j);
    }
  }

  lemma SpansBeforeLast(s: string, words: seq<string>, spans: seq<(nat, nat)>)
    requires s != [] && !IsWhitespace(s[|s| - 1]) && WordSpans(s[..WordStart(s)], words, spans)
    ensures WordSpans(s, words + [s[WordStart(s)..]], spans + [(WordStart(s), |s|)])
  {
    hide IsWhitespace, WordAt, WordStart;
    var start := WordStart(s);
    SpansInside(s, words, spans, start);
    forall i: nat, j: nat ensures WordAt(s, i, j) <==> (i == start && j == |s|) || WordAt(s[..start], i, j) {
      WordBeforeLast(s, i, j);
    }
    SpansAppend(s, words, spans, start);
  }

  lemma SpansAppend(s: string, words: seq<string>, spans: seq<(nat, nat)>, start: nat)
    requires start < |s| && WordSpans(s[..start], words, spans)
    requires forall k :: 0 <= k < |spans| ==> spans[k].0 < spans[k].1 <= start && words[k] == s[spans[k].0..spans[k].1]
    requires forall i: nat, j: nat :: WordAt(s, i, j) <==> (i == start && j == |s|) || WordAt(s[..start], i, j)
    ensures WordSpans(s, words + [s[start..]], spans + [(start, |s|)])
  {
    hide IsWhitespace, WordAt;
    var all, allWords := spans + [(start, |s|)], words + [s[start..]];
    assert s[start..] == s[start..|s|];
    forall i: nat, j: nat | WordAt(s, i, j) ensures (i, j) in all {
      if i == start && j == |s| {
        assert all[|spans|] == (i, j);
      } else {
        assert (i, j) in spans;
      }
    }
    forall k | 0 <= k < |all|
      ensures WordAt(s, all[k].0, all[k].1) && allWords[k] == s[all[k].0..all[k].1]
    {
      if k < |spans| {
        assert WordAt(s[..start], spans[k].0, spans[k].1);
      }
    }
  }

  lemma NoWords()
    ensures WordSpans([], [], [])
  {
  }

  lemma WordRange(s: string, i: nat, j: nat)
    requires WordAt(s, i, j)
    ensures i < j <= |s|
  {
  }

  function TrimEnd(s: string): string {
    if s != [] && IsWhitespace(s[|s| - 1]) then TrimEnd(s[..|s| - 1]) else s
  }

  function TrimStart(s: string): string {
    if s != [] && IsWhitespace(s[0]) then TrimStart(s[1..]) else s
  }

  function Trim(s: string): string {
    TrimEnd(TrimStart(s))
  }

  /** White space after the text does not matter to trimming its end. */
  lemma {:induction false} TrimEndAppend(s: string, tail: string)
    requires forall i :: 0 <= i < |tail| ==> IsWhitespace(tail[i])
    ensures TrimEnd(s + tail) == TrimEnd(s)
  {
    if tail == [] {
      assert s + tail == s;
    } else {
      assert (s + tail)[..|s + tail| - 1] == s + tail[..|tail| - 1];
      TrimEndAppend(s, tail[..|tail| - 1]);
    }
  }

  predicate AllSpace(s: string) {
    forall i :: 0 <= i < |s| ==> IsWhitespace(s[i])
  }

  /** Trimming the end drops white space, all there is, and nothing else. */
  lemma {:induction false} TrimEndMeaning(s: string)
    ensures var kept := TrimEnd(s);
            && kept <= s && AllSpace(s[|kept|..]) && (kept != [] ==> !IsWhitespace(kept[|kept| - 1]))
  {
    hide IsWhitespace, AllSpace;
    if s != [] && IsWhitespace(s[|s| - 1]) {
      var front := s[..|s| - 1];
      TrimEndMeaning(front);
      var kept := TrimEnd(front);
      SpaceGrows(front[|kept|..], s[|s| - 1]);
      assert s[|kept|..] == front[|kept|..] + [s[|s| - 1]];
    } else {
      NoSpace(s[|s|..]);
    }
  }

  lemma SpaceGrows(space: string, c: char)
    requires AllSpace(space) && IsWhitespace(c)
    ensures AllSpace(space + [c]) && AllSpace([c] + space)
  {
  }

  lemma NoSpace(s: string)
    requires s == []
    ensures AllSpace(s)
  {
  }

  lemma {:induction false} TrimStartMeaning(s: string) returns (from: nat)
    ensures from <= |s| && TrimStart(s) == s[from..] && AllSpace(s[..from]) && (from < |s| ==> !IsWhitespace(s[from]))
  {
    hide IsWhitespace, AllSpace;
    if s != [] && IsWhitespace(s[0]) {
      from := TrimStartMeaning(s[1..]);
      SpaceGrows(s[1..][..from], s[0]);
      from := from + 1;
      assert s[..from] == [s[0]] + s[1..][..from - 1] && s[from..] == s[1..][from - 1..];
    } else {
      from := 0;
      NoSpace(s[..0]);
    }
  }

  /** Trimming drops the white space at both ends, all there is, and nothing else. */
  lemma TrimMeaning(s: string) returns (from: nat, to: nat)
    ensures from <= to <= |s| && Trim(s) == s[from..to] && AllSpace(s[..from]) && AllSpace(s[to..])
    ensures Trim(s) != [] ==> !IsWhitespace(s[from]) && !IsWhitespace(s[to - 1])
    ensures Trim(s) == [] <==> AllSpace(s)
  {
    hide IsWhitespace, TrimEnd, TrimStart;
    from := TrimStartMeaning(s);
    TrimEndMeaning(s[from..]);
    to := from + |Trim(s)|;
    assert s[to..] == s[from..][|Trim(s)|..] && s[from..to] == s[from..][..|Trim(s)|];
  }
}
