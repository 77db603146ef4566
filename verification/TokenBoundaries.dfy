/** Where the token-budget splitter cuts a text: at paragraph breaks, then sentence ends, then spaces, and inside a word only when it must. */
module TokenBoundaries {
  import opened TextScan
  import opened TokenBudget

  datatype Level = Paragraph | Phrase | Term

  /** How many line feeds stand directly before the position. */
  function FeedsBefore(text: string, p: nat): nat
    requires p <= |text|
  {
    if p == 0 || text[p - 1] != '\n' then 0 else 1 + FeedsBefore(text, p - 1)
  }

  /**
   * A paragraph may be cut off after every second line feed of a row, a sentence after a line feed
   * or after its mark before a space, and a word where a sentence may or after a space.
   */
  predicate IsBreak(level: Level, text: string, p: nat) {
    0 < p < |text| &&
    match level
    case Paragraph => FeedsBefore(text, p) > 0 && FeedsBefore(text, p) % 2 == 0
    case Phrase => PhraseBreak(text, p)
    case Term => PhraseBreak(text, p) || text[p - 1] == ' '
  }

  predicate PhraseBreak(text: string, p: nat)
    requires 0 < p < |text|
  {
    text[p - 1] == '\n' || ((text[p - 1] == '.' || text[p - 1] == '!' || text[p - 1] == '?') && text[p] == ' ')
  }

  predicate Edge(level: Level, text: string, p: nat) {
    p == 0 || p == |text| || IsBreak(level, text, p)
  }

  /** A paragraph, sentence or word: from one edge to the next. */
  ghost predicate UnitAt(level: Level, text: string, a: nat, b: nat) {
    a < b <= |text| && Edge(level, text, a) && Edge(level, text, b) && forall p: nat :: a < p < b ==> !IsBreak(level, text, p)
  }

  function Offset(segments: seq<string>, k: nat): nat
    requires k <= |segments|
  {
    |Concat(segments[..k])|
  }

  /** One segment ends and another begins at the position. */
  ghost predicate CutAt(segments: seq<string>, p: nat) {
    exists k :: 0 < k < |segments| && Offset(segments, k) == p
  }

  /** The position lies inside a unit that is too heavy. */
  ghost predicate InHeavy(t: Tokens, level: Level, text: string, budget: nat, p: nat) {
    exists a: nat, b: nat :: UnitAt(level, text, a, b) && a < p < b && t.est(text[a..b]) > budget
  }

  // ---------- offsets ----------

  lemma OffsetAppend(a: seq<string>, b: seq<string>, k: nat)
    requires k <= |a + b|
    ensures k <= |a| ==> Offset(a + b, k) == Offset(a, k)
    ensures k >= |a| ==> Offset(a + b, k) == |Concat(a)| + Offset(b, k - |a|)
  {
    hide Concat;
    if k <= |a| {
      assert (a + b)[..k] == a[..k];
    }
    if k >= |a| {
      assert (a + b)[..k] == a + b[..k - |a|];
      ConcatAppend(a, b[..k - |a|]);
    }
  }

  lemma CutAppend(a: seq<string>, b: seq<string>, p: nat)
    requires CutAt(a + b, p)
    ensures CutAt(a, p) || (a != [] && b != [] && p == |Concat(a)|) || (p >= |Concat(a)| && CutAt(b, p - |Concat(a)|))
  {
    hide Concat, Offset;
    var k :| 0 < k < |a + b| && Offset(a + b, k) == p;
    OffsetAppend(a, b, k);
    if k == |a| {
      WholeOffset(a);
    }
  }

  lemma WholeOffset(a: seq<string>)
    ensures Offset(a, |a|) == |Concat(a)|
  {
    assert a[..|a|] == a;
  }

  lemma CutCons(first: string, rest: seq<string>, p: nat)
    requires rest != []
    ensures CutAt([first] + rest, p) <==> p == |first| || (p >= |first| && CutAt(rest, p - |first|))
  {
    hide Concat, Offset;
    ConcatOne(first);
    WholeOffset([first]);
    if CutAt([first] + rest, p) {
      CutAppend([first], rest, p);
    }
    if p == |first| {
      OffsetAppend([first], rest, 1);
      assert Offset([first] + rest, 1) == p;
    }
    if p >= |first| && CutAt(rest, p - |first|) {
      var k :| 0 < k < |rest| && Offset(rest, k) == p - |first|;
      OffsetAppend([first], rest, k + 1);
    }
  }

  lemma NoCut(segment: string, p: nat)
    ensures !CutAt([segment], p) && !CutAt([], p)
  {
  }

  // ---------- pieces that end at every break, and only there ----------

  ghost predicate SplitAt(level: Level, pieces: seq<string>, text: string) {
    Tile(pieces, text) && forall p: nat :: 0 < p < |text| ==> (CutAt(pieces, p) <==> IsBreak(level, text, p))
  }

  /** The rest of a text has the breaks of the text, when it begins at an edge. */
  lemma BreakShift(level: Level, text: string, a: nat, p: nat)
    requires a < p < |text| && Edge(level, text, a)
    ensures IsBreak(level, text[a..], p - a) == IsBreak(level, text, p)
  {
    if level == Paragraph {
      FeedsShift(text, a, p);
      if a > 0 {
        assert FeedsBefore(text, a) % 2 == 0;
      }
    }
  }

  lemma {:induction false} FeedsShift(text: string, a: nat, p: nat)
    requires a <= p <= |text|
    ensures var local := FeedsBefore(text[a..], p - a);
            FeedsBefore(text, p) == if local == p - a then local + FeedsBefore(text, a) else local
    ensures FeedsBefore(text[a..], p - a) <= p - a
    decreases p
  {
    if p > a {
      assert text[a..][p - a - 1] == text[p - 1];
      FeedsShift(text, a, p - 1);
    }
  }

  lemma {:induction false} FeedsPrefix(text: string, b: nat, p: nat)
    requires p <= b <= |text|
    ensures FeedsBefore(text[..b], p) == FeedsBefore(text, p)
  {
    if p > 0 {
      FeedsPrefix(text, b, p - 1);
    }
  }

  lemma BreakPrefix(level: Level, text: string, b: nat, p: nat)
    requires p < b <= |text|
    ensures IsBreak(level, text[..b], p) == IsBreak(level, text, p)
  {
    FeedsPrefix(text, b, p);
  }

  lemma SplitSame(level: Level, text: string)
    requires text != [] && forall p: nat :: 0 < p < |text| ==> !IsBreak(level, text, p)
    ensures SplitAt(level, [text], text)
  {
    hide Concat;
    ConcatOne(text);
  }

  lemma SplitCons(level: Level, first: string, rest: seq<string>, text: string)
    requires first != [] && first < text && SplitAt(level, rest, text[|first|..])
    requires IsBreak(level, text, |first|) && forall p: nat :: 0 < p < |first| ==> !IsBreak(level, text, p)
    ensures SplitAt(level, [first] + rest, text)
  {
    hide Concat, IsBreak;
    TileCons(first, rest, text);
    assert rest != [] by {
      if rest == [] {
        ConcatNone();
      }
    }
    forall p: nat | 0 < p < |text| ensures CutAt([first] + rest, p) <==> IsBreak(level, text, p) {
      CutCons(first, rest, p);
      if p > |first| {
        BreakShift(level, text, |first|, p);
      } else if CutAt(rest, 0) {
        NoCutAtStart(rest, text[|first|..]);
      }
    }
  }

  lemma NoCutAtStart(pieces: seq<string>, text: string)
    requires Tile(pieces, text)
    ensures !CutAt(pieces, 0)
  {
    forall k | 0 < k < |pieces| ensures Offset(pieces, k) > 0 {
      ConcatFirst(pieces[..k]);
    }
  }

  lemma {:induction false} ParagraphsSplit(text: string)
    ensures SplitAt(Paragraph, Paragraphs(text), text)
    decreases |text|
  {
    ParagraphsTile(text);
    if text != [] {
      var at := FindBreak(text, 0);
      FirstFeeds(text, at);
      if at == |text| {
        SplitSame(Paragraph, text);
      } else if at + 2 == |text| {
        assert text[at + 2..] == [];
        assert text[..at + 2] == text && [text] + [] == [text];
        SplitSame(Paragraph, text);
      } else {
        ParagraphsSplit(text[at + 2..]);
        SplitCons(Paragraph, text[..at + 2], Paragraphs(text[at + 2..]), text);
      }
    }
  }

  /** Up to the first pair of line feeds no row of them is longer than one. */
  lemma FirstFeeds(text: string, at: nat)
    requires at == FindBreak(text, 0)
    ensures forall p: nat :: 0 < p < |text| && p < at + 2 ==> !IsBreak(Paragraph, text, p)
    ensures at + 2 < |text| ==> IsBreak(Paragraph, text, at + 2)
  {
    forall p: nat | 0 < p < |text| && p < at + 2 ensures FeedsBefore(text, p) <= 1 {
      assert p >= 2 ==> FeedsBefore(text, p - 1) <= 1 + FeedsBefore(text, p - 2);
    }
    if at + 2 < |text| {
      assert FeedsBefore(text, at + 2) == 1 + FeedsBefore(text, at + 1) == 2 + FeedsBefore(text, at);
      assert at > 0 ==> text[at - 1] != '\n';
    }
  }

  function LevelOf(kind: Boundary): Level {
    if kind == Sentence then Phrase else Term
  }

  /** Words are cut in texts without a sentence end inside. */
  ghost predicate Refined(kind: Boundary, text: string) {
    kind == Word ==> forall p: nat :: 0 < p < |text| ==> !IsBreak(Phrase, text, p)
  }

  lemma EndsIsBreak(kind: Boundary, text: string, p: nat)
    requires Refined(kind, text) && 0 < p < |text|
    ensures Ends(kind, text, p) <==> IsBreak(LevelOf(kind), text, p)
  {
    assert !IsBreak(Phrase, text, p) || kind == Sentence;
  }

  lemma {:induction false} PiecesSplit(kind: Boundary, text: string)
    requires Refined(kind, text)
    ensures SplitAt(LevelOf(kind), Pieces(kind, text), text)
    decreases |text|
  {
    hide IsBreak, Ends;
    PiecesTile(kind, text);
    if text != [] {
      var end := FirstEnd(kind, text, 1);
      forall p: nat | 0 < p < |text| ensures Ends(kind, text, p) <==> IsBreak(LevelOf(kind), text, p) {
        EndsIsBreak(kind, text, p);
      }
      if end == |text| {
        assert text[..end] == text && text[end..] == [] && [text] + [] == [text];
        SplitSame(LevelOf(kind), text);
      } else {
        RefinedRest(kind, text, end);
        PiecesSplit(kind, text[end..]);
        SplitCons(LevelOf(kind), text[..end], Pieces(kind, text[end..]), text);
      }
    }
  }

  lemma RefinedRest(kind: Boundary, text: string, a: nat)
    requires Refined(kind, text) && a < |text|
    ensures Refined(kind, text[a..])
  {
    forall p: nat | 0 < p < |text[a..]| ensures IsBreak(Phrase, text[a..], p) == IsBreak(Phrase, text, a + p) {
    }
  }

  // ---------- cuts between and inside pieces ----------

  /** A piece of a split text is a unit of it. */
  lemma PieceIsUnit(level: Level, pieces: seq<string>, text: string, i: nat)
    requires SplitAt(level, pieces, text) && i < |pieces|
    ensures var a := Offset(pieces, i);
            a + |pieces[i]| <= |text| && pieces[i] == text[a..a + |pieces[i]|] && UnitAt(level, text, a, a + |pieces[i]|)
  {
    hide Concat, IsBreak;
    PieceRange(pieces, text, i);
    var a := Offset(pieces, i);
    var b := a + |pieces[i]|;
    NextOffset(pieces, i);
    ConcatNone();
    if 0 < i {
      assert CutAt(pieces, a);
    }
    if i + 1 < |pieces| {
      assert CutAt(pieces, b);
      PieceRange(pieces, text, i + 1);
    } else {
      WholeOffset(pieces);
    }
    forall p: nat | a < p < b ensures !IsBreak(level, text, p) {
      if CutAt(pieces, p) {
        var k :| 0 < k < |pieces| && Offset(pieces, k) == p;
        OffsetsGrow(pieces, text, k, i);
        OffsetsGrow(pieces, text, i + 1, k);
      }
    }
  }

  lemma NextOffset(pieces: seq<string>, i: nat)
    requires i < |pieces|
    ensures Offset(pieces, i + 1) == Offset(pieces, i) + |pieces[i]|
    ensures Offset(pieces, 0) == 0
  {
    assert pieces[..i + 1][..i] == pieces[..i];
  }

  lemma {:induction false} OffsetsGrow(pieces: seq<string>, text: string, j: nat, k: nat)
    requires Tile(pieces, text) && j <= |pieces| && k <= |pieces|
    ensures j <= k ==> Offset(pieces, j) <= Offset(pieces, k)
    decreases k
  {
    hide Concat, Offset;
    if j < k {
      OffsetsGrow(pieces, text, j, k - 1);
      NextOffset(pieces, k - 1);
    }
  }

  lemma PieceRange(pieces: seq<string>, text: string, i: nat)
    requires Tile(pieces, text) && i < |pieces|
    ensures var a := Offset(pieces, i);
            0 < |pieces[i]| && a + |pieces[i]| <= |text| && pieces[i] == text[a..a + |pieces[i]|]
    ensures i > 0 ==> Offset(pieces, i) > 0
  {
    hide Concat;
    var a := Concat(pieces[..i]);
    assert pieces == pieces[..i] + pieces[i..] && pieces[i..] == [pieces[i]] + pieces[i + 1..];
    ConcatAppend(pieces[..i], pieces[i..]);
    ConcatFirst(pieces[i..]);
    assert text == a + (pieces[i] + Concat(pieces[i + 1..]));
    if i > 0 {
      ConcatFirst(pieces[..i]);
    }
  }

  /** A cut of pieces that were split further lies between two of them or inside one. */
  lemma {:induction false} CutOfAll(t: Tokens, pieces: seq<string>, budget: nat, bound: nat, p: nat) returns (i: nat)
    requires Sound(t) && forall i :: 0 <= i < |pieces| ==> pieces[i] != [] && |pieces[i]| < bound
    requires CutAt(AtomicAll(t, pieces, budget, bound), p)
    ensures i < |pieces|
    ensures (i > 0 && p == Offset(pieces, i)) || (p >= Offset(pieces, i) && CutAt(Atomic(t, pieces[i], budget), p - Offset(pieces, i)))
    decreases |pieces|
  {
    hide Concat, Offset, Atomic, Sound;
    if pieces == [] {
      NoCut("", p);
    }
    var front, last := pieces[..|pieces| - 1], pieces[|pieces| - 1];
    var a, b := AtomicAll(t, front, budget, bound), Atomic(t, last, budget);
    CutAppend(a, b, p);
    AtomicAllTiles(t, front, budget, bound);
    WholeOffset(front);
    assert pieces == front + [last];
    if CutAt(a, p) {
      i := CutOfAll(t, front, budget, bound, p);
      OffsetAppend(front, [last], i);
    } else {
      i := |front|;
      OffsetAppend(front, [last], i);
      if front == [] {
        ConcatNone();
        NoCut("", p);
      }
    }
  }

  /** Inside a unit that was split as a whole, breaks and heavy units are those of the text around it. */
  lemma Lift(t: Tokens, level: Level, text: string, a: nat, b: nat, budget: nat, p: nat)
    requires UnitAt(level, text, a, b) || (a < b <= |text| && Edge(level, text, a) && Edge(level, text, b))
    requires 0 < p < b - a
    ensures IsBreak(level, text[a..b], p) ==> IsBreak(level, text, a + p)
    ensures InHeavy(t, level, text[a..b], budget, p) ==> InHeavy(t, level, text, budget, a + p)
  {
    hide IsBreak;
    var slice := text[a..b];
    forall q: nat | 0 < q < b - a ensures IsBreak(level, slice, q) == IsBreak(level, text, a + q) {
      assert slice == text[a..][..b - a];
      BreakPrefix(level, text[a..], b - a, q);
      BreakShift(level, text, a, a + q);
    }
    if InHeavy(t, level, slice, budget, p) {
      var x: nat, y: nat :| UnitAt(level, slice, x, y) && x < p < y && t.est(slice[x..y]) > budget;
      SubSlice(text, a, b, x, y);
      LiftUnit(level, text, a, b, x, y);
    }
  }

  lemma SubSlice(text: string, a: nat, b: nat, x: nat, y: nat)
    requires a <= b <= |text| && x <= y <= b - a
    ensures text[a..b][x..y] == text[a + x..a + y]
  {
    forall k | 0 <= k < y - x ensures text[a..b][x..y][k] == text[a + x..a + y][k] {
      assert text[a..b][x + k] == text[a + x + k];
    }
  }

  lemma LiftUnit(level: Level, text: string, a: nat, b: nat, x: nat, y: nat)
    requires a < b <= |text| && Edge(level, text, a) && Edge(level, text, b) && UnitAt(level, text[a..b], x, y)
    requires forall q: nat :: 0 < q < b - a ==> IsBreak(level, text[a..b], q) == IsBreak(level, text, a + q)
    ensures UnitAt(level, text, a + x, a + y)
  {
    hide IsBreak;
    var slice := text[a..b];
    assert |slice| == b - a;
    forall p: nat | a + x < p < a + y ensures !IsBreak(level, text, p) {
      var q: nat := p - a;
      assert IsBreak(level, slice, q) == IsBreak(level, text, a + q);
    }
    LiftEdge(level, text, a, b, x);
    LiftEdge(level, text, a, b, y);
  }

  lemma LiftEdge(level: Level, text: string, a: nat, b: nat, x: nat)
    requires a < b <= |text| && Edge(level, text, a) && Edge(level, text, b) && x <= b - a && Edge(level, text[a..b], x)
    requires forall q: nat :: 0 < q < b - a ==> IsBreak(level, text[a..b], q) == IsBreak(level, text, a + q)
    ensures Edge(level, text, a + x)
  {
    hide IsBreak;
    if 0 < x < b - a {
      assert IsBreak(level, text[a..b], x) == IsBreak(level, text, a + x);
    } else if x == 0 {
      assert a + x == a;
    } else {
      assert a + x == b;
    }
  }

  lemma Finer(text: string, p: nat)
    ensures IsBreak(Paragraph, text, p) ==> IsBreak(Phrase, text, p)
    ensures IsBreak(Phrase, text, p) ==> IsBreak(Term, text, p)
  {
  }

  lemma FinerEdge(text: string, p: nat)
    ensures Edge(Paragraph, text, p) ==> Edge(Phrase, text, p)
    ensures Edge(Phrase, text, p) ==> Edge(Term, text, p)
  {
    hide IsBreak;
    Finer(text, p);
  }

  // ---------- the hierarchy ----------

  /** The cut is a break of the level, or the unit of the level around it is too heavy. */
  ghost predicate Justified(t: Tokens, level: Level, text: string, budget: nat, p: nat) {
    IsBreak(level, text, p) || InHeavy(t, level, text, budget, p)
  }

  ghost predicate NoBreaks(level: Level, text: string) {
    forall p: nat :: 0 < p < |text| ==> !IsBreak(level, text, p)
  }

  lemma WholeIsHeavy(t: Tokens, level: Level, text: string, budget: nat, p: nat)
    requires NoBreaks(level, text) && t.est(text) > budget && 0 < p < |text|
    ensures InHeavy(t, level, text, budget, p)
  {
    hide IsBreak;
    assert text[0..|text|] == text;
    assert UnitAt(level, text, 0, |text|);
  }

  lemma OnePiece(level: Level, pieces: seq<string>, text: string)
    requires SplitAt(level, pieces, text) && text != []
    ensures |pieces| <= 1 <==> NoBreaks(level, text)
    ensures pieces != [] && forall i :: 0 <= i < |pieces| ==> pieces[i] != [] && (|pieces| > 1 ==> |pieces[i]| < |text|)
  {
    hide Concat, IsBreak;
    TileShorter(pieces, text);
    ConcatNone();
    if |pieces| > 1 {
      NextOffset(pieces, 0);
      PieceRange(pieces, text, 0);
      PieceRange(pieces, text, 1);
      assert CutAt(pieces, Offset(pieces, 1));
      assert Offset(pieces, 1) < |text|;
    } else {
      forall p: nat | 0 < p < |text| ensures !CutAt(pieces, p) {
      }
    }
  }

  lemma CutInside(t: Tokens, text: string, budget: nat, p: nat)
    requires Sound(t) && CutAt(Atomic(t, text, budget), p)
    ensures 0 < p < |text| && t.est(text) > budget
  {
    hide Concat;
    AtomicTiles(t, text, budget);
    var segments := Atomic(t, text, budget);
    var k :| 0 < k < |segments| && Offset(segments, k) == p;
    PieceRange(segments, text, k);
  }

  /** A cut of pieces split further is a break where pieces meet, or a cut inside a piece that is a unit too heavy. */
  lemma CutOfPieces(t: Tokens, level: Level, pieces: seq<string>, text: string, budget: nat, p: nat) returns (a: nat, b: nat)
    requires Sound(t) && SplitAt(level, pieces, text) && |pieces| > 1 && text != []
    requires forall i :: 0 <= i < |pieces| ==> |pieces[i]| < |text|
    requires CutAt(AtomicAll(t, pieces, budget, |text|), p)
    ensures 0 < p < |text|
    ensures IsBreak(level, text, p) || (UnitAt(level, text, a, b) && a < p < b && CutAt(Atomic(t, text[a..b], budget), p - a) && t.est(text[a..b]) > budget)
  {
    hide Concat, IsBreak, Sound, Atomic, AtomicAll, UnitAt;
    var i := CutOfAll(t, pieces, budget, |text|, p);
    PieceIsUnit(level, pieces, text, i);
    PieceRange(pieces, text, i);
    a := Offset(pieces, i);
    b := a + |pieces[i]|;
    if i > 0 && p == a {
      assert CutAt(pieces, p);
    } else {
      CutInside(t, pieces[i], budget, p - a);
    }
  }

  lemma UnitIsHeavy(t: Tokens, level: Level, text: string, budget: nat, a: nat, b: nat, p: nat)
    requires UnitAt(level, text, a, b) && a < p < b && t.est(text[a..b]) > budget
    ensures InHeavy(t, level, text, budget, p)
  {
  }

  /** The pieces are split one by one. */
  ghost predicate SplitFurther(t: Tokens, pieces: seq<string>, text: string, budget: nat)
    requires Sound(t)
  {
    && (forall i :: 0 <= i < |pieces| ==> |pieces[i]| < |text|)
    && Atomic(t, text, budget) == AtomicAll(t, pieces, budget, |text|)
  }

  /** The levels below: what Atomic does with a text in which no paragraph, or no sentence, ends. */
  lemma AtomicUnfold(t: Tokens, text: string, budget: nat)
    requires Sound(t) && t.est(text) > budget && text != []
    ensures |Paragraphs(text)| > 1 ==> SplitFurther(t, Paragraphs(text), text, budget)
    ensures |Paragraphs(text)| <= 1 && |Pieces(Sentence, text)| > 1 ==> SplitFurther(t, Pieces(Sentence, text), text, budget)
    ensures |Paragraphs(text)| <= 1 && |Pieces(Sentence, text)| <= 1 && |Pieces(Word, text)| > 1 ==>
              SplitFurther(t, Pieces(Word, text), text, budget)
  {
    hide Paragraphs, Pieces, Tile, Concat, AtomicAll, HardSplit;
    ParagraphsTile(text);
    TileShorter(Paragraphs(text), text);
    PiecesTile(Sentence, text);
    TileShorter(Pieces(Sentence, text), text);
    PiecesTile(Word, text);
    TileShorter(Pieces(Word, text), text);
  }

  lemma NoFinerBreaks(level: Level, text: string)
    requires NoBreaks(Phrase, text)
    ensures NoBreaks(Paragraph, text) && Refined(Word, text)
  {
    hide IsBreak;
    forall p: nat | 0 < p < |text| ensures !IsBreak(Paragraph, text, p) {
      Finer(text, p);
    }
  }

  /** In a text without a sentence end inside. */
  lemma TermCuts(t: Tokens, text: string, budget: nat, p: nat)
    requires Sound(t) && NoBreaks(Phrase, text) && CutAt(Atomic(t, text, budget), p)
    ensures Justified(t, Term, text, budget, p)
  {
    hide Atomic, AtomicAll, Sound, Paragraphs, Pieces, IsBreak, SplitAt, NoBreaks, UnitAt, InHeavy;
    CutInside(t, text, budget, p);
    NoFinerBreaks(Term, text);
    ParagraphsSplit(text);
    OnePiece(Paragraph, Paragraphs(text), text);
    PiecesSplit(Sentence, text);
    OnePiece(Phrase, Pieces(Sentence, text), text);
    PiecesSplit(Word, text);
    OnePiece(Term, Pieces(Word, text), text);
    AtomicUnfold(t, text, budget);
    if |Pieces(Word, text)| > 1 {
      var a, b := CutOfPieces(t, Term, Pieces(Word, text), text, budget, p);
      if !IsBreak(Term, text, p) {
        UnitIsHeavy(t, Term, text, budget, a, b, p);
      }
    } else {
      WholeIsHeavy(t, Term, text, budget, p);
    }
  }

  /** In a text without a paragraph break inside. */
  lemma PhraseCuts(t: Tokens, level: Level, text: string, budget: nat, p: nat)
    requires Sound(t) && level != Paragraph && NoBreaks(Paragraph, text) && CutAt(Atomic(t, text, budget), p)
    ensures Justified(t, level, text, budget, p)
  {
    hide Atomic, AtomicAll, Sound, Paragraphs, Pieces, IsBreak, SplitAt, NoBreaks, UnitAt, InHeavy;
    CutInside(t, text, budget, p);
    ParagraphsSplit(text);
    OnePiece(Paragraph, Paragraphs(text), text);
    PiecesSplit(Sentence, text);
    OnePiece(Phrase, Pieces(Sentence, text), text);
    AtomicUnfold(t, text, budget);
    if |Pieces(Sentence, text)| > 1 {
      var a, b := CutOfPieces(t, Phrase, Pieces(Sentence, text), text, budget, p);
      Finer(text, p);
      if !IsBreak(Phrase, text, p) {
        UnitIsHeavy(t, Phrase, text, budget, a, b, p);
        if level == Term {
          UnitHasNoBreaks(Phrase, text, a, b);
          TermCuts(t, text[a..b], budget, p - a);
          LiftJustified(t, Phrase, Term, text, a, b, budget, p);
        }
      }
    } else if level == Phrase {
      WholeIsHeavy(t, Phrase, text, budget, p);
    } else {
      TermCuts(t, text, budget, p);
    }
  }

  lemma UnitHasNoBreaks(level: Level, text: string, a: nat, b: nat)
    requires UnitAt(level, text, a, b)
    ensures a < b <= |text| && NoBreaks(level, text[a..b])
  {
    hide IsBreak;
    var slice := text[a..b];
    forall q: nat | 0 < q < |slice| ensures !IsBreak(level, slice, q) {
      assert slice == text[a..][..b - a];
      BreakPrefix(level, text[a..], b - a, q);
      BreakShift(level, text, a, a + q);
    }
  }

  lemma LiftJustified(t: Tokens, outer: Level, level: Level, text: string, a: nat, b: nat, budget: nat, p: nat)
    requires UnitAt(outer, text, a, b) && a < p < b && (outer == Paragraph || level == Term)
    requires Justified(t, level, text[a..b], budget, p - a)
    ensures Justified(t, level, text, budget, p)
  {
    hide IsBreak, InHeavy;
    FinerEdge(text, a);
    FinerEdge(text, b);
    Lift(t, level, text, a, b, budget, p - a);
  }

  /**
   * Where a text is cut: at a paragraph break, or inside a paragraph that is too heavy; at a
   * sentence end, or inside a sentence that is too heavy; at the end of a word, or inside a word
   * that is too heavy.
   */
  lemma CutsAreJustified(t: Tokens, level: Level, text: string, budget: nat, p: nat)
    requires Sound(t) && CutAt(Atomic(t, text, budget), p)
    ensures Justified(t, level, text, budget, p)
  {
    hide Atomic, AtomicAll, Sound, Paragraphs, Pieces, IsBreak, SplitAt, NoBreaks, UnitAt, InHeavy;
    CutInside(t, text, budget, p);
    ParagraphsSplit(text);
    OnePiece(Paragraph, Paragraphs(text), text);
    AtomicUnfold(t, text, budget);
    if |Paragraphs(text)| > 1 {
      var a, b := CutOfPieces(t, Paragraph, Paragraphs(text), text, budget, p);
      Finer(text, p);
      if !IsBreak(Paragraph, text, p) {
        UnitIsHeavy(t, Paragraph, text, budget, a, b, p);
        if level != Paragraph {
          UnitHasNoBreaks(Paragraph, text, a, b);
          PhraseCuts(t, level, text[a..b], budget, p - a);
          LiftJustified(t, Paragraph, level, text, a, b, budget, p);
        }
      }
    } else if level == Paragraph {
      WholeIsHeavy(t, Paragraph, text, budget, p);
    } else {
      PhraseCuts(t, level, text, budget, p);
    }
  }

  /** So no paragraph, sentence or word that fits is cut. */
  lemma FittingUnitsStayWhole(t: Tokens, level: Level, text: string, budget: nat, a: nat, b: nat, p: nat)
    requires Sound(t) && UnitAt(level, text, a, b) && t.est(text[a..b]) <= budget && a < p < b
    ensures !CutAt(Atomic(t, text, budget), p)
  {
    hide Atomic, Sound, IsBreak, CutAt;
    if CutAt(Atomic(t, text, budget), p) {
      CutsAreJustified(t, level, text, budget, p);
      var x: nat, y: nat :| UnitAt(level, text, x, y) && x < p < y && t.est(text[x..y]) > budget;
      UnitsAreOne(level, text, a, b, x, y, p);
    }
  }

  lemma UnitsAreOne(level: Level, text: string, a: nat, b: nat, x: nat, y: nat, p: nat)
    requires UnitAt(level, text, a, b) && UnitAt(level, text, x, y) && a < p < b && x < p < y
    ensures a == x && b == y
  {
    hide IsBreak;
  }

  // ---------- and nothing that has to be cut stays whole ----------

  lemma CutsOfBoth(a: seq<string>, b: seq<string>, p: nat)
    ensures CutAt(a, p) ==> CutAt(a + b, p)
    ensures a != [] && b != [] ==> CutAt(a + b, |Concat(a)|)
    ensures CutAt(b, p) ==> CutAt(a + b, |Concat(a)| + p)
  {
    hide Concat, Offset;
    if CutAt(a, p) {
      var k :| 0 < k < |a| && Offset(a, k) == p;
      OffsetAppend(a, b, k);
    }
    if a != [] && b != [] {
      OffsetAppend(a, b, |a|);
      WholeOffset(a);
    }
    if CutAt(b, p) {
      var k :| 0 < k < |b| && Offset(b, k) == p;
      OffsetAppend(a, b, |a| + k);
    }
  }

  lemma NonEmpty(t: Tokens, piece: string, budget: nat)
    requires Sound(t) && piece != []
    ensures Atomic(t, piece, budget) != []
  {
    AtomicTiles(t, piece, budget);
    ConcatNone();
  }

  lemma AllNonEmpty(t: Tokens, pieces: seq<string>, budget: nat, bound: nat)
    requires Sound(t) && pieces != [] && forall i :: 0 <= i < |pieces| ==> pieces[i] != [] && |pieces[i]| < bound
    ensures AtomicAll(t, pieces, budget, bound) != []
  {
    hide Atomic;
    NonEmpty(t, pieces[|pieces| - 1], budget);
  }

  /** Pieces that are split further are cut where they meet, and where each of them is. */
  lemma {:induction false} CutsOfAll(t: Tokens, pieces: seq<string>, budget: nat, bound: nat, i: nat, q: nat)
    requires Sound(t) && i < |pieces| && forall i :: 0 <= i < |pieces| ==> pieces[i] != [] && |pieces[i]| < bound
    ensures i > 0 ==> CutAt(AtomicAll(t, pieces, budget, bound), Offset(pieces, i))
    ensures CutAt(Atomic(t, pieces[i], budget), q) ==> CutAt(AtomicAll(t, pieces, budget, bound), Offset(pieces, i) + q)
    decreases |pieces|
  {
    hide Concat, Offset, Atomic, Sound, CutAt;
    var front, last := pieces[..|pieces| - 1], pieces[|pieces| - 1];
    var a, b := AtomicAll(t, front, budget, bound), Atomic(t, last, budget);
    assert pieces == front + [last];
    OffsetAppend(front, [last], i);
    CutsOfBoth(a, b, Offset(pieces, i));
    CutsOfBoth(a, b, Offset(pieces, i) + q);
    if i < |front| {
      CutsOfAll(t, front, budget, bound, i, q);
    } else {
      WholeOffset(front);
      AtomicAllTiles(t, front, budget, bound);
      CutsOfBoth(a, b, q);
      NonEmpty(t, last, budget);
      if i > 0 {
        AllNonEmpty(t, front, budget, bound);
      }
    }
  }

  /** Inside a unit breaks are those of the text around it. */
  lemma SliceBreak(level: Level, text: string, a: nat, b: nat, q: nat)
    requires a < b <= |text| && Edge(level, text, a) && 0 < q < b - a
    ensures IsBreak(level, text[a..b], q) == IsBreak(level, text, a + q)
  {
    hide IsBreak;
    assert text[a..b] == text[a..][..b - a];
    BreakPrefix(level, text[a..], b - a, q);
    BreakShift(level, text, a, a + q);
  }

  /** Around a position that is no break of the level stands a piece. */
  lemma PieceAround(level: Level, pieces: seq<string>, text: string, p: nat) returns (i: nat)
    requires SplitAt(level, pieces, text) && 0 < p < |text| && !IsBreak(level, text, p)
    ensures i < |pieces| && Offset(pieces, i) < p < Offset(pieces, i) + |pieces[i]|
  {
    hide Concat, IsBreak, Offset;
    i := 0;
    ConcatNone();
    NextOffset(pieces, 0);
    WholeOffset(pieces);
    while i + 1 < |pieces| && Offset(pieces, i + 1) <= p
      invariant i < |pieces| && Offset(pieces, i) < p
    {
      assert Offset(pieces, i + 1) != p;
      i := i + 1;
    }
    NextOffset(pieces, i);
  }

  /** The heavy unit around the position is the piece around it. */
  lemma HeavyPiece(t: Tokens, level: Level, pieces: seq<string>, text: string, budget: nat, p: nat) returns (i: nat, a: nat, b: nat)
    requires SplitAt(level, pieces, text) && 0 < p < |text| && InHeavy(t, level, text, budget, p)
    ensures i < |pieces| && a == Offset(pieces, i) && UnitAt(level, text, a, b) && a < p < b && pieces[i] == text[a..b]
    ensures t.est(pieces[i]) > budget
  {
    hide IsBreak, Offset, SplitAt;
    var x: nat, y: nat :| UnitAt(level, text, x, y) && x < p < y && t.est(text[x..y]) > budget;
    i := PieceAround(level, pieces, text, p);
    PieceIsUnit(level, pieces, text, i);
    a := Offset(pieces, i);
    b := a + |pieces[i]|;
    UnitsAreOne(level, text, a, b, x, y, p);
  }

  /** A finer unit around a position lies inside the coarser one. */
  lemma HeavyInside(t: Tokens, level: Level, text: string, a: nat, b: nat, budget: nat, p: nat)
    requires a < p < b <= |text| && Edge(level, text, a) && Edge(level, text, b) && InHeavy(t, level, text, budget, p)
    ensures InHeavy(t, level, text[a..b], budget, p - a)
  {
    hide IsBreak;
    var x: nat, y: nat :| UnitAt(level, text, x, y) && x < p < y && t.est(text[x..y]) > budget;
    var slice := text[a..b];
    assert a <= x && y <= b;
    SubSlice(text, a, b, x - a, y - a);
    forall q: nat | 0 < q < b - a ensures IsBreak(level, slice, q) == IsBreak(level, text, a + q) {
      SliceBreak(level, text, a, b, q);
    }
    assert Edge(level, slice, x - a) by {
      if x > a {
        assert IsBreak(level, slice, x - a) == IsBreak(level, text, a + (x - a));
      }
    }
    assert Edge(level, slice, y - a) by {
      if y < b {
        assert IsBreak(level, slice, y - a) == IsBreak(level, text, a + (y - a));
      }
    }
    assert UnitAt(level, slice, x - a, y - a) by {
      forall q: nat | x - a < q < y - a ensures !IsBreak(level, slice, q) {
        assert IsBreak(level, slice, q) == IsBreak(level, text, a + q);
      }
    }
  }

  /** A heavy text with a break of the level is cut there when the pieces of that level are split one by one. */
  lemma BreakIsCut(t: Tokens, level: Level, pieces: seq<string>, text: string, budget: nat, p: nat)
    requires Sound(t) && SplitAt(level, pieces, text) && IsBreak(level, text, p) && SplitFurther(t, pieces, text, budget)
    ensures CutAt(Atomic(t, text, budget), p)
  {
    hide IsBreak, Offset, Atomic, AtomicAll, Concat, Sound;
    assert 0 < p < |text| by {
      BreakInside(level, text, p);
    }
    var k :| 0 < k < |pieces| && Offset(pieces, k) == p;
    CutsOfAll(t, pieces, budget, |text|, k, 0);
  }

  lemma BreakInside(level: Level, text: string, p: nat)
    requires IsBreak(level, text, p)
    ensures 0 < p < |text|
  {
  }

  lemma MorePieces(level: Level, pieces: seq<string>, text: string, p: nat)
    requires SplitAt(level, pieces, text) && IsBreak(level, text, p)
    ensures |pieces| > 1
  {
    hide IsBreak, Offset;
    BreakInside(level, text, p);
    assert CutAt(pieces, p);
  }

  /** What a heavy text without a sentence end inside is cut at. */
  lemma TermsAreCut(t: Tokens, text: string, budget: nat, p: nat)
    requires Sound(t) && NoBreaks(Phrase, text) && t.est(text) > budget && IsBreak(Term, text, p)
    ensures CutAt(Atomic(t, text, budget), p)
  {
    hide Atomic, AtomicAll, Sound, Paragraphs, Pieces, IsBreak, SplitAt, NoBreaks, SplitFurther, CutAt;
    BreakInside(Term, text, p);
    NoFinerBreaks(Term, text);
    ParagraphsSplit(text);
    OnePiece(Paragraph, Paragraphs(text), text);
    PiecesSplit(Sentence, text);
    OnePiece(Phrase, Pieces(Sentence, text), text);
    PiecesSplit(Word, text);
    MorePieces(Term, Pieces(Word, text), text, p);
    AtomicUnfold(t, text, budget);
    BreakIsCut(t, Term, Pieces(Word, text), text, budget, p);
  }

  /** What a heavy text without a paragraph break inside is cut at. */
  lemma PhrasesAreCut(t: Tokens, text: string, budget: nat, p: nat)
    requires Sound(t) && NoBreaks(Paragraph, text) && t.est(text) > budget
    requires IsBreak(Phrase, text, p) || (IsBreak(Term, text, p) && InHeavy(t, Phrase, text, budget, p))
    ensures CutAt(Atomic(t, text, budget), p)
  {
    hide Atomic, AtomicAll, Sound, Paragraphs, Pieces, IsBreak, SplitAt, NoBreaks, SplitFurther, CutAt, InHeavy, UnitAt;
    BreakInside(if IsBreak(Phrase, text, p) then Phrase else Term, text, p);
    ParagraphsSplit(text);
    OnePiece(Paragraph, Paragraphs(text), text);
    PiecesSplit(Sentence, text);
    OnePiece(Phrase, Pieces(Sentence, text), text);
    AtomicUnfold(t, text, budget);
    if IsBreak(Phrase, text, p) {
      MorePieces(Phrase, Pieces(Sentence, text), text, p);
      BreakIsCut(t, Phrase, Pieces(Sentence, text), text, budget, p);
    } else if |Pieces(Sentence, text)| <= 1 {
      TermsAreCut(t, text, budget, p);
    } else {
      var i, a, b := HeavyPiece(t, Phrase, Pieces(Sentence, text), text, budget, p);
      UnitHasNoBreaks(Phrase, text, a, b);
      UnitBreak(Phrase, Term, text, a, b, p);
      TermsAreCut(t, text[a..b], budget, p - a);
      PiecesTile(Sentence, text);
      InnerCut(t, Pieces(Sentence, text), text, budget, i, p);
    }
  }

  lemma UnitBreak(outer: Level, level: Level, text: string, a: nat, b: nat, p: nat)
    requires UnitAt(outer, text, a, b) && a < p < b && (outer == Paragraph || level == Term)
    ensures Edge(level, text, a) && Edge(level, text, b)
    ensures IsBreak(level, text[a..b], p - a) == IsBreak(level, text, p)
  {
    hide IsBreak;
    FinerEdge(text, a);
    FinerEdge(text, b);
    SliceBreak(level, text, a, b, p - a);
  }

  lemma InnerCut(t: Tokens, pieces: seq<string>, text: string, budget: nat, i: nat, p: nat)
    requires Sound(t) && Tile(pieces, text) && i < |pieces| && SplitFurther(t, pieces, text, budget)
    requires Offset(pieces, i) < p && CutAt(Atomic(t, pieces[i], budget), p - Offset(pieces, i))
    ensures CutAt(Atomic(t, text, budget), p)
  {
    hide Offset, Atomic, AtomicAll, Concat, Sound, CutAt;
    CutsOfAll(t, pieces, budget, |text|, i, p - Offset(pieces, i));
  }

  /**
   * At the end of a word the text is cut exactly when the text is too heavy and a paragraph ends
   * there, or the paragraph around it is too heavy and a sentence ends there, or that sentence is
   * too heavy as well.
   */
  lemma CutsAtBreaks(t: Tokens, text: string, budget: nat, p: nat)
    requires Sound(t) && IsBreak(Term, text, p)
    ensures CutAt(Atomic(t, text, budget), p)
            <==> t.est(text) > budget && Justified(t, Paragraph, text, budget, p) && Justified(t, Phrase, text, budget, p)
  {
    hide Atomic, AtomicAll, Sound, Paragraphs, Pieces, IsBreak, SplitAt, NoBreaks, SplitFurther, CutAt, InHeavy, UnitAt, Edge;
    BreakInside(Term, text, p);
    if CutAt(Atomic(t, text, budget), p) {
      CutInside(t, text, budget, p);
      CutsAreJustified(t, Paragraph, text, budget, p);
      CutsAreJustified(t, Phrase, text, budget, p);
    } else if t.est(text) > budget && Justified(t, Paragraph, text, budget, p) && Justified(t, Phrase, text, budget, p) {
      BreaksAreCut(t, text, budget, p);
    }
  }

  lemma BreaksAreCut(t: Tokens, text: string, budget: nat, p: nat)
    requires Sound(t) && IsBreak(Term, text, p) && t.est(text) > budget
    requires Justified(t, Paragraph, text, budget, p) && Justified(t, Phrase, text, budget, p)
    ensures CutAt(Atomic(t, text, budget), p)
  {
    hide Atomic, AtomicAll, Sound, Paragraphs, Pieces, IsBreak, SplitAt, NoBreaks, SplitFurther, CutAt, InHeavy, UnitAt, Edge;
    BreakInside(Term, text, p);
    ParagraphsSplit(text);
    OnePiece(Paragraph, Paragraphs(text), text);
    AtomicUnfold(t, text, budget);
    if IsBreak(Paragraph, text, p) {
      MorePieces(Paragraph, Paragraphs(text), text, p);
      BreakIsCut(t, Paragraph, Paragraphs(text), text, budget, p);
    } else if |Paragraphs(text)| <= 1 {
      PhrasesAreCut(t, text, budget, p);
    } else {
      var i, a, b := HeavyPiece(t, Paragraph, Paragraphs(text), text, budget, p);
      UnitHasNoBreaks(Paragraph, text, a, b);
      UnitBreak(Paragraph, Phrase, text, a, b, p);
      UnitBreak(Paragraph, Term, text, a, b, p);
      if !IsBreak(Phrase, text, p) {
        HeavyInside(t, Phrase, text, a, b, budget, p);
      }
      PhrasesAreCut(t, text[a..b], budget, p - a);
      ParagraphsTile(text);
      InnerCut(t, Paragraphs(text), text, budget, i, p);
    }
  }

  /** A word that is too heavy becomes the longest pieces that fit, or single characters where none does. */
  lemma WordsAreFilled(t: Tokens, text: string, budget: nat, k: nat)
    requires Sound(t) && NoBreaks(Term, text) && t.est(text) > budget && k < |Atomic(t, text, budget)|
    ensures var segments := Atomic(t, text, budget);
            && Offset(segments, k) < |text| && var rest := text[Offset(segments, k)..];
            && segments[k] == (if t.truncate(rest, budget) != [] then t.truncate(rest, budget) else rest[..1])
  {
    hide Sound, Paragraphs, Pieces, IsBreak, SplitAt, HardSplit, Offset;
    WordIsHard(t, text, budget);
    HardSegments(t, text, budget, k);
  }

  lemma WordIsHard(t: Tokens, text: string, budget: nat)
    requires Sound(t) && NoBreaks(Term, text) && t.est(text) > budget
    ensures Atomic(t, text, budget) == HardSplit(t, text, budget)
  {
    hide Sound, Paragraphs, Pieces, IsBreak, SplitAt, HardSplit;
    if text != [] {
      NoTermBreaks(text);
      NoFinerBreaks(Term, text);
      ParagraphsSplit(text);
      OnePiece(Paragraph, Paragraphs(text), text);
      PiecesSplit(Sentence, text);
      OnePiece(Phrase, Pieces(Sentence, text), text);
      PiecesSplit(Word, text);
      OnePiece(Term, Pieces(Word, text), text);
    } else {
      NoHardPieces(t, text, budget);
    }
  }

  lemma NoHardPieces(t: Tokens, text: string, budget: nat)
    requires Sound(t) && text == []
    ensures HardSplit(t, text, budget) == []
  {
  }

  lemma NoTermBreaks(text: string)
    requires NoBreaks(Term, text)
    ensures NoBreaks(Phrase, text)
  {
    hide IsBreak;
    forall p: nat | 0 < p < |text| ensures !IsBreak(Phrase, text, p) {
      Finer(text, p);
    }
  }

  lemma {:induction false} HardSegments(t: Tokens, text: string, budget: nat, k: nat)
    requires Sound(t) && k < |HardSplit(t, text, budget)|
    ensures var segments := HardSplit(t, text, budget);
            && Offset(segments, k) < |text| && segments[k] == HardPiece(t, text[Offset(segments, k)..], budget)
    decreases k
  {
    hide Sound, Offset;
    var piece := HardPiece(t, text, budget);
    HardPieceFits(t, text, budget);
    var rest := HardSplit(t, text[|piece|..], budget);
    NextOffset([piece] + rest, 0);
    assert text[0..] == text;
    if k > 0 {
      HardSegments(t, text[|piece|..], budget, k - 1);
      OffsetAppend([piece], rest, k);
      ConcatOne(piece);
      assert text[|piece|..][Offset(rest, k - 1)..] == text[|piece| + Offset(rest, k - 1)..];
    }
  }

  lemma HardPieceFits(t: Tokens, text: string, budget: nat)
    requires Sound(t) && text != []
    ensures HardPiece(t, text, budget) <= text && HardPiece(t, text, budget) != []
  {
  }

  // ---------- the pieces of a split as stretches of the text ----------

  /**
   * The pieces are stretches of the text, in order: the first begins where the text begins, the
   * last ends where it ends, and every other begins inside its predecessor or right after it,
   * beyond the predecessor's start, and ends beyond its end.
   */
  ghost predicate Stretches(pieces: seq<string>, text: string, spans: seq<(nat, nat)>) {
    && |pieces| == |spans| > 0 && spans[0].0 == 0 && spans[|spans| - 1].1 == |text|
    && (forall i :: 0 <= i < |spans| ==> spans[i].0 <= spans[i].1 <= |text| && pieces[i] == text[spans[i].0..spans[i].1])
    && (forall i :: 0 <= i < |spans| - 1 ==> Follows(spans[i], spans[i + 1]))
  }

  /** The pieces tell the text: without what each repeats of its predecessor they are the text. */
  ghost predicate Rebuilds(pieces: seq<string>, text: string) {
    exists spans :: Stretches(pieces, text, spans)
  }

  /** The pieces without that many characters at their start. */
  function Dropped(pieces: seq<string>, repeated: seq<nat>): seq<string>
    requires |pieces| == |repeated| && forall i :: 0 <= i < |pieces| ==> repeated[i] <= |pieces[i]|
  {
    seq(|pieces|, i requires 0 <= i < |pieces| => pieces[i][repeated[i]..])
  }

  /** A piece repeats the end of its predecessor, but not all of it, and adds something. */
  predicate Repeats(before: string, piece: string, k: nat) {
    k < |before| && k < |piece| && before[|before| - k..] == piece[..k]
  }

  /** What rebuilding means: drop what each piece repeats, and the text is left. */
  lemma RebuildsText(pieces: seq<string>, text: string) returns (repeated: seq<nat>)
    requires Rebuilds(pieces, text)
    ensures |pieces| == |repeated| > 0 && repeated[0] == 0
    ensures forall i :: 0 <= i < |pieces| ==> repeated[i] <= |pieces[i]|
    ensures forall i :: 0 < i < |pieces| ==> Repeats(pieces[i - 1], pieces[i], repeated[i])
    ensures Concat(Dropped(pieces, repeated)) == text
  {
    var spans: seq<(nat, nat)> :| Stretches(pieces, text, spans);
    hide Concat, Repeats, Stretches, RepeatedAt, Dropped;
    repeated := seq(|spans|, i requires 0 <= i < |spans| => RepeatedAt(spans, i));
    StretchEnds(pieces, text, spans);
    forall i | 0 <= i < |pieces|
      ensures repeated[i] <= |pieces[i]|
      ensures i > 0 ==> Repeats(pieces[i - 1], pieces[i], repeated[i])
    {
      StretchAt(pieces, text, spans, i);
    }
    DroppedJoin(pieces, text, spans, repeated);
  }

  lemma DroppedJoin(pieces: seq<string>, text: string, spans: seq<(nat, nat)>, repeated: seq<nat>)
    requires Stretches(pieces, text, spans) && |repeated| == |pieces|
    requires forall i :: 0 <= i < |pieces| ==> repeated[i] <= |pieces[i]| && repeated[i] == RepeatedAt(spans, i)
    ensures Concat(Dropped(pieces, repeated)) == text
  {
    hide Concat, Stretches, RepeatedAt, Dropped, EndBefore, Repeats;
    var parts := Dropped(pieces, repeated);
    StretchEnds(pieces, text, spans);
    DroppedAt(pieces, repeated, 0);
    forall i | 0 <= i < |spans| ensures parts[i] == text[EndBefore(spans, i)..spans[i].1] {
      StretchAt(pieces, text, spans, i);
      DroppedAt(pieces, repeated, i);
    }
    PartsJoin(parts, text, spans, |spans|);
    assert parts[..|spans|] == parts && text[..|text|] == text;
  }

  function RepeatedAt(spans: seq<(nat, nat)>, i: nat): nat
    requires i < |spans|
  {
    if i == 0 || spans[i - 1].1 < spans[i].0 then 0 else spans[i - 1].1 - spans[i].0
  }

  function EndBefore(spans: seq<(nat, nat)>, i: nat): nat
    requires i <= |spans|
  {
    if i == 0 then 0 else spans[i - 1].1
  }

  lemma DroppedAt(pieces: seq<string>, repeated: seq<nat>, i: nat)
    requires |pieces| == |repeated| && i < |pieces| && forall i :: 0 <= i < |pieces| ==> repeated[i] <= |pieces[i]|
    ensures |Dropped(pieces, repeated)| == |pieces| && Dropped(pieces, repeated)[i] == pieces[i][repeated[i]..]
  {
  }

  lemma StretchEnds(pieces: seq<string>, text: string, spans: seq<(nat, nat)>)
    requires Stretches(pieces, text, spans)
    ensures |pieces| == |spans| > 0 && RepeatedAt(spans, 0) == 0 && spans[|spans| - 1].1 == |text|
    ensures EndBefore(spans, |spans|) == |text|
    ensures forall i :: 0 <= i < |spans| ==> EndBefore(spans, i) <= spans[i].1 <= |text|
  {
    forall i | 0 < i < |spans| ensures spans[i - 1].1 <= spans[i].1 {
      assert Follows(spans[i - 1], spans[i]);
    }
  }

  lemma StretchAt(pieces: seq<string>, text: string, spans: seq<(nat, nat)>, i: nat)
    requires Stretches(pieces, text, spans) && i < |spans|
    ensures var k := RepeatedAt(spans, i);
            && k <= |pieces[i]| && (i > 0 ==> Repeats(pieces[i - 1], pieces[i], k))
            && EndBefore(spans, i) <= spans[i].1 <= |text| && pieces[i][k..] == text[EndBefore(spans, i)..spans[i].1]
  {
    hide Repeats;
    if i > 0 {
      assert Follows(spans[i - 1], spans[i]);
      RepeatedStretch(text, spans[i - 1], spans[i]);
    }
  }

  lemma RepeatedStretch(text: string, before: (nat, nat), span: (nat, nat))
    requires Follows(before, span) && span.1 <= |text|
    ensures Repeats(text[before.0..before.1], text[span.0..span.1], before.1 - span.0)
    ensures text[span.0..span.1][before.1 - span.0..] == text[before.1..span.1]
  {
    var a, b, k := text[before.0..before.1], text[span.0..span.1], before.1 - span.0;
    assert a[|a| - k..] == text[span.0..before.1] && b[..k] == text[span.0..before.1];
  }

  lemma {:induction false} PartsJoin(parts: seq<string>, text: string, spans: seq<(nat, nat)>, n: nat)
    requires n <= |parts| == |spans|
    requires forall i :: 0 <= i < |spans| ==> EndBefore(spans, i) <= spans[i].1 <= |text|
    requires forall i :: 0 <= i < |spans| ==> parts[i] == text[EndBefore(spans, i)..spans[i].1]
    ensures EndBefore(spans, n) <= |text| && Concat(parts[..n]) == text[..EndBefore(spans, n)]
  {
    hide Concat;
    if n == 0 {
      ConcatNone();
    } else {
      PartsJoin(parts, text, spans, n - 1);
      ConcatLast(parts, n);
      SliceJoin(text, EndBefore(spans, n - 1), spans[n - 1].1);
    }
  }

  lemma ConcatLast(parts: seq<string>, n: nat)
    requires 0 < n <= |parts|
    ensures Concat(parts[..n]) == Concat(parts[..n - 1]) + parts[n - 1]
  {
    assert parts[..n][..n - 1] == parts[..n - 1];
  }

  lemma SliceJoin(text: string, a: nat, b: nat)
    requires a <= b <= |text|
    ensures text[..a] + text[a..b] == text[..b]
  {
  }

  /** The stretch that a window over the segments covers. */
  function Span(segments: seq<string>, w: (nat, nat)): (nat, nat)
    requires w.0 <= |segments| && w.1 <= |segments|
  {
    (Offset(segments, w.0), Offset(segments, w.1))
  }

  lemma SliceConcat(segments: seq<string>, a: nat, b: nat)
    requires a <= b <= |segments|
    ensures var all := Concat(segments);
            && Offset(segments, a) <= Offset(segments, b) <= |all|
            && Concat(segments[a..b]) == all[Offset(segments, a)..Offset(segments, b)]
  {
    hide Concat;
    ConcatAppend(segments[..a], segments[a..b]);
    ConcatAppend(segments[..b], segments[b..]);
    assert segments[..a] + segments[a..b] == segments[..b] && segments[..b] + segments[b..] == segments;
  }

  lemma StrictOffsets(segments: seq<string>, text: string, a: nat, b: nat)
    requires Tile(segments, text) && a < b <= |segments|
    ensures Offset(segments, a) < Offset(segments, b)
  {
    hide Concat, Offset;
    OffsetsGrow(segments, text, a + 1, b);
    NextOffset(segments, a);
  }

  /** A place where a piece begins or ends is one where a segment does. */
  ghost predicate AtCuts(segments: seq<string>, text: string, span: (nat, nat)) {
    && (span.0 == 0 || CutAt(segments, span.0))
    && (span.1 == |text| || CutAt(segments, span.1))
  }

  lemma WindowsAreStretches(segments: seq<string>, text: string, windows: seq<(nat, nat)>, pieces: seq<string>)
    returns (spans: seq<(nat, nat)>)
    requires Tile(segments, text) && Linked(windows, |segments|) && |pieces| == |windows|
    requires forall i :: 0 <= i < |windows| ==> pieces[i] == Concat(segments[windows[i].0..windows[i].1])
    ensures Stretches(pieces, text, spans)
    ensures forall i :: 0 <= i < |spans| ==> AtCuts(segments, text, spans[i])
  {
    hide Concat, Offset;
    spans := seq(|windows|, i requires 0 <= i < |windows| => Span(segments, windows[i]));
    WholeOffset(segments);
    if segments != [] {
      NextOffset(segments, 0);
    }
    forall i | 0 <= i < |spans|
      ensures spans[i].0 <= spans[i].1 <= |text| && pieces[i] == text[spans[i].0..spans[i].1] && AtCuts(segments, text, spans[i])
    {
      var w := windows[i];
      SliceConcat(segments, w.0, w.1);
      assert w.0 == 0 || Offset(segments, w.0) == spans[i].0;
      assert w.1 == |segments| || Offset(segments, w.1) == spans[i].1;
    }
    forall i | 0 <= i < |spans| - 1 ensures Follows(spans[i], spans[i + 1]) {
      var w, next := windows[i], windows[i + 1];
      StrictOffsets(segments, text, w.0, next.0);
      OffsetsGrow(segments, text, next.0, w.1);
      StrictOffsets(segments, text, w.1, next.1);
    }
  }

  /** A piece begins and ends where the text may be cut at every level, paragraphs before sentences before words. */
  ghost predicate WellCut(t: Tokens, text: string, budget: nat, span: (nat, nat)) {
    forall level: Level ::
      && (span.0 == 0 || Justified(t, level, text, budget, span.0))
      && (span.1 == |text| || Justified(t, level, text, budget, span.1))
  }

  /** The pieces of a text rebuild it, and each begins and ends at a justified place. */
  lemma PiecesAreStretches(t: Tokens, text: string, maxTokens: nat) returns (spans: seq<(nat, nat)>)
    requires Sound(t)
    ensures Stretches(SplitPieces(t, text, maxTokens), text, spans)
    ensures forall i :: 0 <= i < |spans| ==> WellCut(t, text, SegmentBudget(Budget(maxTokens)), spans[i])
  {
    hide Sound, Windows, Joined, Atomic, Tile, Linked, TightPair, AllFit, Justified, CutAt, SegmentBudget, Budget;
    if text != [] && Cut(t, text, maxTokens) {
      PiecesAreWindows(t, text, maxTokens);
      var segments := Segments(t, text, maxTokens);
      spans := WindowsAreStretches(segments, text, Windows(t, text, maxTokens), SplitPieces(t, text, maxTokens));
      forall i, level: Level | 0 <= i < |spans|
        ensures spans[i].0 == 0 || Justified(t, level, text, SegmentBudget(Budget(maxTokens)), spans[i].0)
        ensures spans[i].1 == |text| || Justified(t, level, text, SegmentBudget(Budget(maxTokens)), spans[i].1)
      {
        assert AtCuts(segments, text, spans[i]);
        if CutAt(segments, spans[i].0) {
          CutsAreJustified(t, level, text, SegmentBudget(Budget(maxTokens)), spans[i].0);
        }
        if CutAt(segments, spans[i].1) {
          CutsAreJustified(t, level, text, SegmentBudget(Budget(maxTokens)), spans[i].1);
        }
      }
    } else {
      spans := [(0, |text|)];
      assert text[0..|text|] == text;
    }
  }
}
