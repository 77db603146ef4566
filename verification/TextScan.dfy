/** Searching and splitting text the way Rust's string slices do. */
module TextScan {
  import opened Options
  import opened Unicode

  function StripPrefix(s: string, prefix: string): Option<string> {
    if prefix <= s then Some(s[|prefix|..]) else None
  }

  /** The piece occurs in the text. */
  predicate Contains(text: string, piece: string) {
    exists at :: 0 <= at <= |text| && OccursAt(text, piece, at)
  }

  predicate OccursAt(text: string, piece: string, at: nat) {
    at + |piece| <= |text| && text[at..at + |piece|] == piece
  }

  /** First position at or after `from` where the pattern occurs; nothing when there is none. */
  function Find(s: string, pattern: string, from: nat): (at: Option<nat>)
    requires from <= |s|
    ensures at.Some? ==> from <= at.value && OccursAt(s, pattern, at.value)
    ensures forall i :: from <= i <= |s| && (at.Some? ==> i < at.value) ==> !OccursAt(s, pattern, i)
    decreases |s| - from
  {
    if OccursAt(s, pattern, from) then Some(from)
    else if from == |s| then None
    else Find(s, pattern, from + 1)
  }

  /** First position of a character; the length when it does not occur. */
  function FirstIndex(s: string, c: char): (at: nat)
    ensures at <= |s| && (at < |s| ==> s[at] == c)
    ensures forall i :: 0 <= i < at ==> s[i] != c
  {
    if s == [] || s[0] == c then 0 else 1 + FirstIndex(s[1..], c)
  }

  lemma FirstIndexIs(s: string, c: char, at: nat)
    requires at < |s| && s[at] == c && forall i :: 0 <= i < at ==> s[i] != c
    ensures FirstIndex(s, c) == at
  {
  }

  /** The parts before and after the first occurrence. */
  function SplitOnce(s: string, c: char): Option<(string, string)> {
    var at := FirstIndex(s, c);
    if at < |s| then Some((s[..at], s[at + 1..])) else None
  }

  function StripCr(s: string): string {
    if s != [] && s[|s| - 1] == '\r' then s[..|s| - 1] else s
  }

  /** Lines without their line ends; a carriage return before a line feed belongs to the line end. */
  function Lines(s: string): seq<string> {
    if s == [] then []
    else
      var at := FirstIndex(s, '\n');
      if at == |s| then [s] else [StripCr(s[..at])] + Lines(s[at + 1..])
  }

  predicate OneLine(s: string) {
    forall i :: 0 <= i < |s| ==> s[i] != '\n' && s[i] != '\r'
  }

  lemma LinesCons(line: string, rest: string)
    requires OneLine(line)
    ensures Lines(line + "\n" + rest) == [line] + Lines(rest)
    ensures line != [] ==> Lines(line) == [line]
  {
    var s := line + "\n" + rest;
    FirstIndexIs(s, '\n', |line|);
    assert s[..|line|] == line && s[|line| + 1..] == rest;
  }

  /** The pieces one after the other. */
  function Concat(pieces: seq<string>): string {
    if pieces == [] then [] else Concat(pieces[..|pieces| - 1]) + pieces[|pieces| - 1]
  }

  lemma {:induction false} ConcatAppend(a: seq<string>, b: seq<string>)
    ensures Concat(a + b) == Concat(a) + Concat(b)
  {
    if b == [] {
      assert a + b == a;
    } else {
      ConcatAppend(a, b[..|b| - 1]);
      assert (a + b)[..|a + b| - 1] == a + b[..|b| - 1];
    }
  }

  lemma ConcatNone()
    ensures Concat([]) == []
  {
  }

  lemma ConcatOne(piece: string)
    ensures Concat([piece]) == piece
  {
    assert [piece][..0] == [];
  }

  lemma ConcatFirst(pieces: seq<string>)
    requires pieces != []
    ensures Concat(pieces) == pieces[0] + Concat(pieces[1..])
  {
    assert pieces == [pieces[0]] + pieces[1..];
    ConcatAppend([pieces[0]], pieces[1..]);
    ConcatOne(pieces[0]);
  }

  lemma {:induction false} VisibleAll(s: string)
    requires forall i :: 0 <= i < |s| ==> !IsWhitespace(s[i])
    ensures Visible(s) == s
  {
    if s != [] {
      VisibleAll(s[..|s| - 1]);
    }
  }

  /** The words, one after the other, are the text without its white space. */
  lemma {:induction false} WordsInOrder(s: string)
    ensures Concat(SplitWhitespace(s)) == Visible(s)
  {
    if s == [] {
    } else if IsWhitespace(s[|s| - 1]) {
      WordsInOrder(s[..|s| - 1]);
    } else {
      var start := WordStart(s);
      WordsInOrder(s[..start]);
      VisibleAll(s[start..]);
      assert s == s[..start] + s[start..];
      VisibleConcat(s[..start], s[start..]);
      ConcatAppend(SplitWhitespace(s[..start]), [s[start..]]);
      ConcatOne(s[start..]);
    }
  }
}
