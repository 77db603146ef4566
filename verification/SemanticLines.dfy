/**
 * Splitting a Markdown paragraph by lines and then by words.  Sizes are UTF-8 bytes; cuts fall
 * between characters.
 */
module SemanticLines {
  import opened TextScan
  import opened Unicode

  // ---------- what must survive ----------

  predicate Blank(s: string) {
    Trim(s) == []
  }

  lemma NothingVisible()
    ensures Visible("") == [] && Visible(Concat([])) == []
  {
  }

  lemma VisibleSpace(s: string, c: char)
    requires IsWhitespace(c)
    ensures Visible(s + [c]) == Visible(s)
  {
    assert (s + [c])[..|s|] == s;
  }

  lemma {:induction false} TrimEndSlice(s: string) returns (j: nat)
    ensures j <= |s| && TrimEnd(s) == s[..j] && Visible(TrimEnd(s)) == Visible(s)
    ensures j > 0 ==> !IsWhitespace(s[j - 1])
  {
    if s != [] && IsWhitespace(s[|s| - 1]) {
      j := TrimEndSlice(s[..|s| - 1]);
      assert s[..|s| - 1][..j] == s[..j];
    } else {
      j := |s|;
      assert s[..j] == s;
    }
  }

  lemma {:induction false} TrimStartSlice(s: string) returns (i: nat)
    ensures i <= |s| && TrimStart(s) == s[i..] && Visible(TrimStart(s)) == Visible(s)
  {
    if s != [] && IsWhitespace(s[0]) {
      i := TrimStartSlice(s[1..]);
      assert s[1..][i..] == s[i + 1..];
      SpaceFirst(s);
      i := i + 1;
    } else {
      i := 0;
    }
  }

  /** Trimming takes a slice and loses nothing visible. */
  lemma TrimSlice(s: string) returns (i: nat, j: nat)
    ensures i <= j <= |s| && Trim(s) == s[i..j] && Visible(Trim(s)) == Visible(s)
    ensures i < j ==> !IsWhitespace(s[j - 1])
  {
    i := TrimStartSlice(s);
    j := TrimEndSlice(s[i..]);
    assert s[i..][..j] == s[i..i + j];
    j := i + j;
  }

  lemma BlankIsInvisible(s: string)
    ensures Blank(s) <==> Visible(s) == []
  {
    var i, j := TrimSlice(s);
    if i < j {
      assert s[i..j] == s[i..j - 1] + [s[j - 1]];
      VisibleConcat(s[i..j - 1], [s[j - 1]]);
      assert Visible([s[j - 1]]) == [s[j - 1]];
    }
  }

  lemma SliceBytes(s: string, i: nat, j: nat)
    requires i <= j <= |s|
    ensures ByteLen(s[i..j]) <= ByteLen(s)
  {
    assert s == s[..i] + s[i..j] + s[j..];
    ByteLenConcat(s[..i] + s[i..j], s[j..]);
    ByteLenConcat(s[..i], s[i..j]);
  }

  /** A line end at the end does not survive trimming. */
  lemma TrimLine(s: string)
    ensures ByteLen(Trim(s + "\n")) <= ByteLen(s) && |Trim(s + "\n")| <= |s|
  {
    var t := s + "\n";
    var i, j := TrimSlice(t);
    if i < j {
      assert t[|t| - 1] == '\n';
      assert t[i..j] == s[i..j];
      SliceBytes(s, i, j);
    }
  }

  // ---------- one line ----------

  /** How many characters fit into so many bytes. */
  function Fit(s: string, max: nat): (n: nat)
    ensures n <= |s|
  {
    if s == [] || Utf8Len(s[0]) > max then 0 else 1 + Fit(s[1..], max - Utf8Len(s[0]))
  }

  lemma {:induction false} FitIsLargest(s: string, max: nat, n: nat)
    requires n <= |s|
    ensures ByteLen(s[..n]) <= max <==> n <= Fit(s, max)
  {
    if n == 0 {
    } else {
      assert s[..n] == [s[0]] + s[1..][..n - 1];
      ByteLenConcat([s[0]], s[1..][..n - 1]);
      assert ByteLen([s[0]]) == Utf8Len(s[0]);
      if Utf8Len(s[0]) <= max {
        FitIsLargest(s[1..], max - Utf8Len(s[0]), n - 1);
      }
    }
  }

  /** Where the text after its last space begins; zero without a space. */
  function AfterLastSpace(s: string): (at: nat)
    ensures at <= |s| && (at > 0 ==> s[at - 1] == ' ')
    ensures forall i :: at <= i < |s| ==> s[i] != ' '
  {
    if s == [] || s[|s| - 1] == ' ' then |s| else AfterLastSpace(s[..|s| - 1])
  }

  /** Where to cut the rest of a line: after the last space that fits, else where the bytes run out, but after one character at least. */
  function CutAt(rest: string, max: nat): (cut: nat)
    requires rest != []
    ensures 0 < cut <= |rest|
  {
    var fit := Fit(rest, max);
    var end := if fit == 0 then 1 else fit;
    var space := AfterLastSpace(rest[..end]);
    if space == 0 then end else space
  }

  function AfterCut(rest: string, cut: nat): string
    requires cut <= |rest|
  {
    if cut < |rest| && rest[cut] == ' ' then rest[cut + 1..] else rest[cut..]
  }

  lemma AfterCutShorter(rest: string, cut: nat)
    requires 0 < cut <= |rest|
    ensures |AfterCut(rest, cut)| < |rest|
  {
  }

  function WordPieces(rest: string, max: nat): seq<string>
    decreases |rest|
  {
    if rest == [] then []
    else if ByteLen(rest) <= max then [rest + "\n"]
    else
      var cut := CutAt(rest, max);
      [rest[..cut] + "\n"] + WordPieces(AfterCut(rest, cut), max)
  }

  /** A piece fits unless it is one character; it ends with the last space that fits, or takes all that fits when there is none. */
  lemma CutsAtSpaces(rest: string, max: nat)
    requires rest != []
    ensures var cut, fit := CutAt(rest, max), Fit(rest, max);
            && (ByteLen(rest[..cut]) <= max || cut == 1)
            && (rest[cut - 1] == ' ' || forall i :: 0 <= i < fit ==> rest[i] != ' ')
            && (rest[cut - 1] != ' ' ==> cut == if fit == 0 then 1 else fit)
            && (forall i :: cut <= i < fit ==> rest[i] != ' ')
  {
    hide ByteLen, Fit, AfterLastSpace, Utf8Len;
    var fit := Fit(rest, max);
    var end := if fit == 0 then 1 else fit;
    FitIsLargest(rest, max, CutAt(rest, max));
    var head := rest[..end];
    var space := AfterLastSpace(head);
    forall i | space <= i < fit ensures rest[i] != ' ' {
      assert head[i] == rest[i];
    }
    if space > 0 {
      assert head[space - 1] == ' ';
    }
  }

  predicate Small(piece: string, max: nat) {
    ByteLen(piece) <= max || |piece| == 1
  }

  lemma SmallTrim(s: string, max: nat)
    requires ByteLen(s) <= max || |s| == 1
    ensures Small(Trim(s + "\n"), max)
  {
    TrimLine(s);
  }

  /** Pieces of a line lose nothing visible, and each is small once trimmed. */
  lemma {:induction false} WordPiecesKeep(rest: string, max: nat)
    ensures Visible(Concat(WordPieces(rest, max))) == Visible(rest)
    ensures forall i :: 0 <= i < |WordPieces(rest, max)| ==> Small(Trim(WordPieces(rest, max)[i]), max)
    decreases |rest|
  {
    hide Visible, Concat, ByteLen, Trim, CutAt, AfterCut, Small;
    if rest == [] {
      NothingVisible();
    } else if ByteLen(rest) <= max {
      SmallTrim(rest, max);
      VisibleSpace(rest, '\n');
      ConcatOne(rest + "\n");
    } else {
      var cut := CutAt(rest, max);
      var piece, after := rest[..cut] + "\n", AfterCut(rest, cut);
      CutsAtSpaces(rest, max);
      SmallTrim(rest[..cut], max);
      AfterCutShorter(rest, cut);
      WordPiecesKeep(after, max);
      VisibleJoin([piece], WordPieces(after, max));
      ConcatOne(piece);
      VisibleSpace(rest[..cut], '\n');
      VisibleAround(rest, cut);
    }
  }

  lemma VisibleAround(rest: string, cut: nat)
    requires cut <= |rest|
    ensures Visible(rest[..cut]) + Visible(AfterCut(rest, cut)) == Visible(rest)
  {
    hide Visible, IsWhitespace;
    var tail := rest[cut..];
    assert rest == rest[..cut] + tail;
    VisibleConcat(rest[..cut], tail);
    if tail != [] && tail[0] == ' ' {
      PlainSpace();
      SpaceFirst(tail);
      assert AfterCut(rest, cut) == tail[1..];
    } else {
      assert AfterCut(rest, cut) == tail;
    }
  }

  lemma PlainSpace()
    ensures IsWhitespace(' ')
  {
  }

  lemma SpaceFirst(s: string)
    requires s != [] && IsWhitespace(s[0])
    ensures Visible(s[1..]) == Visible(s)
  {
    assert s == [s[0]] + s[1..];
    VisibleConcat([s[0]], s[1..]);
    assert Visible([s[0]]) == [];
  }

  function Resume(line: string, splitAt: nat): (start: nat)
    requires splitAt <= |line|
    ensures splitAt <= start <= |line|
  {
    if splitAt < |line| && line[splitAt] == ' ' then splitAt + 1 else splitAt
  }

  lemma WordsNext(chunks: seq<string>, line: string, start: nat, splitAt: nat, max: nat)
    requires start < splitAt <= |line| && ByteLen(line[start..]) > max && splitAt - start == CutAt(line[start..], max)
    ensures chunks + WordPieces(line[start..], max)
         == chunks + [line[start..splitAt] + "\n"] + WordPieces(line[Resume(line, splitAt)..], max)
  {
    hide ByteLen, CutAt, AfterCut, Resume;
    var rest, cut := line[start..], splitAt - start;
    assert rest[..cut] == line[start..splitAt];
    ResumeIs(line, start, splitAt);
    assert WordPieces(rest, max) == [rest[..cut] + "\n"] + WordPieces(AfterCut(rest, cut), max) by {
      assert rest != [];
    }
  }

  lemma ResumeIs(line: string, start: nat, splitAt: nat)
    requires start <= splitAt <= |line|
    ensures AfterCut(line[start..], splitAt - start) == line[Resume(line, splitAt)..]
  {
  }

  lemma WordsLast(chunks: seq<string>, line: string, start: nat, max: nat)
    requires start <= |line| && ByteLen(line[start..]) <= max
    ensures chunks + WordPieces(line[start..], max) == if start < |line| then chunks + [line[start..] + "\n"] else chunks
  {
    hide ByteLen;
  }

  lemma CutAtIs(rest: string, max: nat, cut: nat)
    requires rest != []
    requires var fit := Fit(rest, max);
             var end := if fit == 0 then 1 else fit;
             var space := AfterLastSpace(rest[..end]);
             cut == if space == 0 then end else space
    ensures cut == CutAt(rest, max)
  {
  }

  method SplitWithinLine(line: string, max: nat) returns (chunks: seq<string>)
    ensures chunks == WordPieces(line, max)
  {
    hide Fit, ByteLen, AfterLastSpace, CutAt, WordPieces;
    chunks := [];
    var start := 0;
    assert line[0..] == line;
    while start < |line|
      invariant start <= |line| && chunks + WordPieces(line[start..], max) == WordPieces(line, max)
    {
      if ByteLen(line[start..]) <= max {
        WordsLast(chunks, line, start, max);
        chunks := chunks + [line[start..] + "\n"];
        return;
      }
      var end := start + Fit(line[start..], max);
      if end == start {
        end := start + 1;
      }
      var splitAt := LastBreak(line, start, end);
      CutAtIs(line[start..], max, splitAt - start);
      WordsNext(chunks, line, start, splitAt, max);
      chunks := chunks + [line[start..splitAt] + "\n"];
      start := if splitAt < |line| && line[splitAt] == ' ' then splitAt + 1 else splitAt;
    }
    assert line[start..] == "";
    NoBytes();
    WordsLast(chunks, line, start, max);
  }

  /** Scans backwards for a space to break after. */
  method LastBreak(line: string, start: nat, end: nat) returns (splitAt: nat)
    requires start < end <= |line|
    ensures start < splitAt <= end
    ensures splitAt - start == (var space := AfterLastSpace(line[start..][..end - start]); if space == 0 then end - start else space)
  {
    ghost var rest := line[start..];
    splitAt := end;
    while splitAt > start && line[splitAt - 1] != ' '
      invariant start <= splitAt <= end
      invariant AfterLastSpace(rest[..splitAt - start]) == AfterLastSpace(rest[..end - start])
    {
      assert rest[..splitAt - start][..splitAt - start - 1] == rest[..splitAt - start - 1];
      splitAt := splitAt - 1;
    }
    if splitAt == start {
      splitAt := end;
    }
  }

  // ---------- lines ----------

  function AtLeastOne(max: nat): nat {
    if max > 1 then max else 1
  }

  /** The pieces emitted on meeting a line, and what is then gathered: lines up to the limit; one over it is cut on its own. */
  function Gathered(line: string, max: nat, current: string): (seq<string>, string) {
    if ByteLen(line) > max then (Flushed(current) + WordPieces(line, max), "")
    else if ByteLen(current) + ByteLen(line) + 1 > max && current != [] then ([current], line + "\n")
    else ([], current + line + "\n")
  }

  function Flushed(current: string): seq<string> {
    if current == [] then [] else [current]
  }

  function GatherLines(lines: seq<string>, max: nat, current: string): seq<string> {
    if lines == [] then Flushed(current)
    else
      var (emitted, next) := Gathered(lines[0], max, current);
      emitted + GatherLines(lines[1..], max, next)
  }

  function LinePieces(text: string, maxChars: nat): seq<string> {
    GatherLines(Lines(text), AtLeastOne(maxChars), "")
  }

  lemma VisibleJoin(a: seq<string>, b: seq<string>)
    ensures Visible(Concat(a + b)) == Visible(Concat(a)) + Visible(Concat(b))
  {
    ConcatAppend(a, b);
    VisibleConcat(Concat(a), Concat(b));
  }

  lemma LineFeedIsSpace()
    ensures IsWhitespace('\n')
  {
  }

  lemma VisibleCut(s: string, at: nat)
    requires at < |s| && IsWhitespace(s[at])
    ensures Visible(s) == Visible(s[..at]) + Visible(s[at + 1..])
  {
    hide Visible, IsWhitespace;
    assert s == s[..at] + s[at..];
    VisibleConcat(s[..at], s[at..]);
    SpaceFirst(s[at..]);
    assert s[at..][1..] == s[at + 1..];
  }

  lemma {:induction false} LinesKeep(s: string)
    ensures Visible(Concat(Lines(s))) == Visible(s)
  {
    hide Visible, Concat, IsWhitespace, StripCr;
    if s == [] {
      NothingVisible();
    } else {
      var at := FirstIndex(s, '\n');
      if at == |s| {
        ConcatOne(s);
      } else {
        var line, rest := StripCr(s[..at]), s[at + 1..];
        LinesKeep(rest);
        VisibleJoin([line], Lines(rest));
        ConcatOne(line);
        StripCrKeeps(s[..at]);
        LineFeedIsSpace();
        VisibleCut(s, at);
      }
    }
  }

  lemma StripCrKeeps(s: string)
    ensures Visible(StripCr(s)) == Visible(s)
  {
  }

  lemma LineAdded(current: string, line: string)
    ensures Visible(current + line + "\n") == Visible(current) + Visible(line)
  {
    VisibleSpace(current + line, '\n');
    VisibleConcat(current, line);
  }

  lemma FlushKeeps(current: string)
    ensures Visible(Concat(Flushed(current))) == Visible(current)
  {
    if current != [] {
      ConcatOne(current);
    }
  }

  lemma GatheredKeeps(line: string, max: nat, current: string)
    ensures var (emitted, next) := Gathered(line, max, current);
            Visible(Concat(emitted)) + Visible(next) == Visible(current) + Visible(line)
  {
    hide Visible, ByteLen, Concat, WordPieces, Flushed;
    if ByteLen(line) > max {
      FlushKeeps(current);
      WordPiecesKeep(line, max);
      VisibleJoin(Flushed(current), WordPieces(line, max));
      NothingVisible();
    } else if ByteLen(current) + ByteLen(line) + 1 > max && current != [] {
      ConcatOne(current);
      VisibleSpace(line, '\n');
    } else {
      LineAdded(current, line);
      NothingVisible();
      ConcatNone();
    }
  }

  /** Nothing visible is lost between lines, cut or gathered. */
  lemma {:induction false} GatherKeeps(lines: seq<string>, max: nat, current: string)
    ensures Visible(Concat(GatherLines(lines, max, current))) == Visible(current) + Visible(Concat(lines))
    decreases |lines|
  {
    hide Visible, Concat, Gathered, Flushed;
    if lines == [] {
      FlushKeeps(current);
      NothingVisible();
    } else {
      var (emitted, next) := Gathered(lines[0], max, current);
      GatheredKeeps(lines[0], max, current);
      GatherKeeps(lines[1..], max, next);
      VisibleJoin(emitted, GatherLines(lines[1..], max, next));
      ConcatFirst(lines);
      VisibleConcat(lines[0], Concat(lines[1..]));
      Regroup(Visible(Concat(emitted)), Visible(next), Visible(current), Visible(lines[0]), Visible(Concat(lines[1..])));
    }
  }

  lemma Regroup(a: string, b: string, c: string, d: string, rest: string)
    requires a + b == c + d
    ensures a + (b + rest) == c + (d + rest)
  {
    assert a + (b + rest) == a + b + rest;
    assert c + (d + rest) == c + d + rest;
  }

  /** Gathered lines: nothing yet, or lines of at most so many bytes not counting the last line end. */
  predicate Filled(current: string, max: nat) {
    current != [] ==> current[|current| - 1] == '\n' && ByteLen(current[..|current| - 1]) <= max
  }

  lemma NoneFilled(max: nat)
    ensures Filled("", max) && ByteLen("") == 0
  {
  }

  lemma FilledSmall(current: string, max: nat)
    requires Filled(current, max)
    ensures ByteLen(Trim(current)) <= max && Small(Trim(current), max)
  {
    if current != [] {
      TrimLine(current[..|current| - 1]);
      assert current[..|current| - 1] + "\n" == current;
    }
  }

  lemma LineFills(current: string, line: string, max: nat)
    requires ByteLen(current) + ByteLen(line) <= max
    ensures Filled(current + line + "\n", max)
  {
    ByteLenConcat(current, line);
    assert (current + line + "\n")[..|current + line|] == current + line;
  }

  lemma GatheredSmall(line: string, max: nat, current: string)
    requires Filled(current, max)
    ensures var (emitted, next) := Gathered(line, max, current);
            Filled(next, max) && forall i :: 0 <= i < |emitted| ==> Small(Trim(emitted[i]), max)
  {
    hide ByteLen, WordPieces, Trim, Filled;
    FilledSmall(current, max);
    NoneFilled(max);
    if ByteLen(line) > max {
      WordPiecesKeep(line, max);
    } else if ByteLen(current) + ByteLen(line) + 1 > max && current != [] {
      LineFills("", line, max);
      assert "" + line + "\n" == line + "\n";
    } else {
      LineFills(current, line, max);
    }
  }

  /** Every line-level piece is within the limit once trimmed, or is a single character. */
  lemma {:induction false} GatherSmall(lines: seq<string>, max: nat, current: string)
    requires Filled(current, max)
    ensures forall i :: 0 <= i < |GatherLines(lines, max, current)| ==> Small(Trim(GatherLines(lines, max, current)[i]), max)
    decreases |lines|
  {
    hide Trim, Filled, Gathered, Small;
    if lines == [] {
      FilledSmall(current, max);
    } else {
      var (emitted, next) := Gathered(lines[0], max, current);
      GatheredSmall(lines[0], max, current);
      GatherSmall(lines[1..], max, next);
    }
  }

  /** Splitting by lines and words loses nothing visible and keeps its limit. */
  lemma LinePiecesKeep(text: string, maxChars: nat)
    ensures Visible(Concat(LinePieces(text, maxChars))) == Visible(text)
    ensures forall i :: 0 <= i < |LinePieces(text, maxChars)| ==> Small(Trim(LinePieces(text, maxChars)[i]), AtLeastOne(maxChars))
  {
    GatherKeeps(Lines(text), AtLeastOne(maxChars), "");
    GatherSmall(Lines(text), AtLeastOne(maxChars), "");
    LinesKeep(text);
  }

  lemma NoLinesLeft(lines: seq<string>, max: nat, current: string)
    requires lines == []
    ensures GatherLines(lines, max, current) == Flushed(current)
  {
  }

  lemma GatherNext(chunks: seq<string>, lines: seq<string>, i: nat, max: nat, current: string)
    requires i < |lines|
    ensures var (emitted, next) := Gathered(lines[i], max, current);
            chunks + GatherLines(lines[i..], max, current) == chunks + emitted + GatherLines(lines[i + 1..], max, next)
  {
    hide Gathered, Flushed;
    assert lines[i..][1..] == lines[i + 1..];
  }

  method SplitOnLines(text: string, maxChars: nat) returns (chunks: seq<string>)
    ensures chunks == LinePieces(text, maxChars)
  {
    hide ByteLen, Lines, WordPieces, GatherLines;
    var effectiveMax := if maxChars > 1 then maxChars else 1;
    chunks := [];
    var current := "";
    var lines := Lines(text);
    assert lines[0..] == lines;
    for i := 0 to |lines|
      invariant chunks + GatherLines(lines[i..], effectiveMax, current) == GatherLines(lines, effectiveMax, "")
    {
      var line := lines[i];
      GatherNext(chunks, lines, i, effectiveMax, current);
      if ByteLen(line) > effectiveMax {
        ghost var out := chunks;
        if current != [] {
          chunks := chunks + [current];
        }
        var parts := SplitWithinLine(line, effectiveMax);
        assert chunks + parts == out + (Flushed(current) + parts);
        chunks := chunks + parts;
        current := "";
      } else if ByteLen(current) + ByteLen(line) + 1 > effectiveMax && current != [] {
        chunks := chunks + [current];
        current := line + "\n";
      } else {
        assert chunks == chunks + [];
        current := current + line + "\n";
      }
    }
    NoLinesLeft(lines[|lines|..], effectiveMax, current);
    if current != [] {
      chunks := chunks + [current];
    }
  }
}
