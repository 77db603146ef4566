/** Splitting text into pieces of bounded weight, with overlap between neighbours. */
module TokenBudget {
  import opened TextScan

  const OVERLAP_PERCENT := 12
  const OVERLAP_MAX_PERCENT := 40
  const U32_MAX := 0xFFFF_FFFF

  /** The conservative token estimate, and truncation to a number of tokens; both come from outside the splitter. */
  datatype Tokens = Tokens(est: string -> nat, truncate: (string, nat) -> string)

  /** What the splitter relies on. */
  ghost predicate Sound(t: Tokens) {
    && (forall s :: t.est(s) <= U32_MAX && (s != [] ==> t.est(s) > 0))
    && (forall a, b :: t.est(a + b) <= t.est(a) + t.est(b))
    && (forall s, n :: t.truncate(s, n) <= s && (t.truncate(s, n) != [] ==> t.est(t.truncate(s, n)) <= n))
    && (forall s, n :: s != [] && t.truncate(s, n) == [] ==> t.est(s[..1]) > n)
  }

  /** The pieces follow each other without gap and none is empty. */
  ghost predicate Tile(pieces: seq<string>, text: string) {
    Concat(pieces) == text && forall i :: 0 <= i < |pieces| ==> pieces[i] != []
  }

  lemma TileCons(first: string, rest: seq<string>, text: string)
    requires first != [] && first <= text && Tile(rest, text[|first|..])
    ensures Tile([first] + rest, text)
  {
    ConcatAppend([first], rest);
    assert Concat([first]) == first by {
      assert [first][..0] == [];
    }
  }

  /** Every piece of a tiling is shorter than the whole, when there is another. */
  lemma {:induction false} TileShorter(pieces: seq<string>, text: string)
    requires Tile(pieces, text)
    ensures |pieces| <= |text|
    ensures |pieces| > 1 ==> forall i :: 0 <= i < |pieces| ==> |pieces[i]| < |text|
    ensures |pieces| == 1 ==> pieces[0] == text
  {
    if pieces != [] {
      var front := pieces[..|pieces| - 1];
      TileShorter(front, Concat(front));
      assert pieces == front + [pieces[|pieces| - 1]];
    }
  }

  // ---------- boundaries ----------

  /** First position of a paragraph break at or after `from`; the length when there is none. */
  function FindBreak(text: string, from: nat): (at: nat)
    requires from <= |text|
    ensures from <= at <= |text|
    ensures at < |text| ==> at + 1 < |text| && text[at] == '\n' && text[at + 1] == '\n'
    ensures forall i :: from <= i < at && i + 1 < |text| ==> !(text[i] == '\n' && text[i + 1] == '\n')
    decreases |text| - from
  {
    if from + 1 >= |text| then |text|
    else if text[from] == '\n' && text[from + 1] == '\n' then from
    else FindBreak(text, from + 1)
  }

  /** Pieces that end with a paragraph break, found from the left, and what follows the last one. */
  function Paragraphs(text: string): seq<string> {
    if text == [] then []
    else
      var at := FindBreak(text, 0);
      if at == |text| then [text] else [text[..at + 2]] + Paragraphs(text[at + 2..])
  }

  /** A sentence ends before position `end`: after a line break, or after a full stop, exclamation or question mark before a space. */
  predicate SentenceEnd(text: string, end: nat) {
    0 < end <= |text|
    && (text[end - 1] == '\n' || (text[end - 1] in ".!?" && end < |text| && text[end] == ' '))
  }

  predicate WordEnd(text: string, end: nat) {
    0 < end <= |text| && text[end - 1] == ' '
  }

  datatype Boundary = Sentence | Word

  predicate Ends(kind: Boundary, text: string, end: nat) {
    match kind
    case Sentence => SentenceEnd(text, end)
    case Word => WordEnd(text, end)
  }

  /** The first boundary after the start, or the end of the text. */
  function FirstEnd(kind: Boundary, text: string, from: nat): (end: nat)
    requires 0 < from <= |text|
    ensures from <= end <= |text|
    ensures end < |text| ==> Ends(kind, text, end)
    ensures forall e :: from <= e < end ==> !Ends(kind, text, e)
    decreases |text| - from
  {
    if from == |text| || Ends(kind, text, from) then from else FirstEnd(kind, text, from + 1)
  }

  /** Pieces that end at the boundaries. */
  function Pieces(kind: Boundary, text: string): seq<string> {
    if text == [] then []
    else
      var end := FirstEnd(kind, text, 1);
      [text[..end]] + Pieces(kind, text[end..])
  }

  lemma {:induction false} ParagraphsTile(text: string)
    ensures Tile(Paragraphs(text), text)
  {
    if text != [] {
      var at := FindBreak(text, 0);
      if at == |text| {
        assert [text][..0] == [];
      } else {
        ParagraphsTile(text[at + 2..]);
        TileCons(text[..at + 2], Paragraphs(text[at + 2..]), text);
      }
    }
  }

  lemma {:induction false} PiecesTile(kind: Boundary, text: string)
    ensures Tile(Pieces(kind, text), text)
  {
    if text != [] {
      var end := FirstEnd(kind, text, 1);
      PiecesTile(kind, text[end..]);
      TileCons(text[..end], Pieces(kind, text[end..]), text);
    }
  }

  // ---------- atomic segments ----------

  /** The longest prefix that fits, or one character when none does. */
  function HardPiece(t: Tokens, text: string, budget: nat): string
    requires text != []
  {
    var piece := t.truncate(text, budget);
    if piece == [] then text[..1] else piece
  }

  function HardSplit(t: Tokens, text: string, budget: nat): seq<string>
    requires Sound(t)
  {
    if text == [] then []
    else
      var piece := HardPiece(t, text, budget);
      [piece] + HardSplit(t, text[|piece|..], budget)
  }

  /** Paragraphs before sentences before words before characters; what fits is not split. */
  function Atomic(t: Tokens, text: string, budget: nat): seq<string>
    requires Sound(t)
    decreases |text|, |text| + 1
  {
    if text == [] then []
    else if t.est(text) <= budget then [text]
    else
      ParagraphsTile(text);
      TileShorter(Paragraphs(text), text);
      PiecesTile(Sentence, text);
      TileShorter(Pieces(Sentence, text), text);
      PiecesTile(Word, text);
      TileShorter(Pieces(Word, text), text);
      if |Paragraphs(text)| > 1 then AtomicAll(t, Paragraphs(text), budget, |text|)
      else if |Pieces(Sentence, text)| > 1 then AtomicAll(t, Pieces(Sentence, text), budget, |text|)
      else if |Pieces(Word, text)| > 1 then AtomicAll(t, Pieces(Word, text), budget, |text|)
      else HardSplit(t, text, budget)
  }

  function AtomicAll(t: Tokens, pieces: seq<string>, budget: nat, bound: nat): seq<string>
    requires Sound(t) && forall i :: 0 <= i < |pieces| ==> |pieces[i]| < bound
    decreases bound, |pieces|
  {
    if pieces == [] then []
    else AtomicAll(t, pieces[..|pieces| - 1], budget, bound) + Atomic(t, pieces[|pieces| - 1], budget)
  }

  /** A segment fits, or is a single character. */
  predicate Fits(t: Tokens, segment: string, budget: nat) {
    t.est(segment) <= budget || |segment| == 1
  }

  ghost predicate AllFit(t: Tokens, segments: seq<string>, budget: nat) {
    forall i :: 0 <= i < |segments| ==> Fits(t, segments[i], budget)
  }

  lemma {:induction false} HardSplitTiles(t: Tokens, text: string, budget: nat)
    requires Sound(t)
    ensures Tile(HardSplit(t, text, budget), text) && AllFit(t, HardSplit(t, text, budget), budget)
  {
    if text != [] {
      var piece := HardPiece(t, text, budget);
      assert piece <= text && piece != [] && Fits(t, piece, budget);
      HardSplitTiles(t, text[|piece|..], budget);
      TileCons(piece, HardSplit(t, text[|piece|..], budget), text);
    }
  }

  /** The segments tile the text exactly, and each fits or is one character. */
  lemma {:induction false} AtomicTiles(t: Tokens, text: string, budget: nat)
    requires Sound(t)
    ensures Tile(Atomic(t, text, budget), text) && AllFit(t, Atomic(t, text, budget), budget)
    decreases |text|, |text| + 1
  {
    if text == [] {
    } else if t.est(text) <= budget {
      assert [text][..0] == [];
    } else {
      ParagraphsTile(text);
      TileShorter(Paragraphs(text), text);
      PiecesTile(Sentence, text);
      TileShorter(Pieces(Sentence, text), text);
      PiecesTile(Word, text);
      TileShorter(Pieces(Word, text), text);
      if |Paragraphs(text)| > 1 {
        AtomicAllTiles(t, Paragraphs(text), budget, |text|);
      } else if |Pieces(Sentence, text)| > 1 {
        AtomicAllTiles(t, Pieces(Sentence, text), budget, |text|);
      } else if |Pieces(Word, text)| > 1 {
        AtomicAllTiles(t, Pieces(Word, text), budget, |text|);
      } else {
        HardSplitTiles(t, text, budget);
      }
    }
  }

  lemma {:induction false} AtomicAllTiles(t: Tokens, pieces: seq<string>, budget: nat, bound: nat)
    requires Sound(t) && forall i :: 0 <= i < |pieces| ==> |pieces[i]| < bound
    ensures Tile(AtomicAll(t, pieces, budget, bound), Concat(pieces)) && AllFit(t, AtomicAll(t, pieces, budget, bound), budget)
    decreases bound, |pieces|
  {
    if pieces != [] {
      var front, last := pieces[..|pieces| - 1], pieces[|pieces| - 1];
      AtomicAllTiles(t, front, budget, bound);
      AtomicTiles(t, last, budget);
      ConcatAppend(AtomicAll(t, front, budget, bound), Atomic(t, last, budget));
    }
  }

  // ---------- the splitters ----------

  lemma {:induction false} FindBreakShift(text: string, start: nat, from: nat)
    requires start <= from <= |text|
    ensures FindBreak(text, from) == start + FindBreak(text[start..], from - start)
    decreases |text| - from
  {
    if from + 1 < |text| && !(text[from] == '\n' && text[from + 1] == '\n') {
      FindBreakShift(text, start, from + 1);
    }
  }

  lemma {:induction false} FirstEndShift(kind: Boundary, text: string, start: nat, from: nat, end: nat)
    requires start < from <= end <= |text| && (end == |text| || Ends(kind, text, end))
    requires forall e :: from <= e < end ==> !Ends(kind, text, e)
    ensures FirstEnd(kind, text[start..], from - start) == end - start
    decreases end - from
  {
    assert Ends(kind, text[start..], from - start) == Ends(kind, text, from);
    if from < end {
      FirstEndShift(kind, text, start, from + 1, end);
    }
  }

  /** The first piece of the rest, once its end is known. */
  lemma NextPiece(kind: Boundary, text: string, start: nat, end: nat)
    requires start < end <= |text| && (end == |text| || Ends(kind, text, end))
    requires forall e :: start < e < end ==> !Ends(kind, text, e)
    ensures Pieces(kind, text[start..]) == [text[start..end]] + Pieces(kind, text[end..])
  {
    FirstEndShift(kind, text, start, start + 1, end);
    assert text[start..][..end - start] == text[start..end];
    assert text[start..][end - start..] == text[end..];
  }

  method PushAtomicSegments(t: Tokens, text: string, budget: nat, out: seq<string>) returns (segments: seq<string>)
    requires Sound(t)
    ensures segments == out + Atomic(t, text, budget)
    decreases |text|, 2
  {
    if text == [] {
      return out;
    }
    if t.est(text) <= budget {
      return out + [text];
    }
    var found;
    found, segments := SplitOnSeparator(t, text, budget, out);
    if found {
      return;
    }
    found, segments := SplitOnBoundaries(t, Sentence, text, budget, out);
    if found {
      return;
    }
    found, segments := SplitOnBoundaries(t, Word, text, budget, out);
    if found {
      return;
    }
    segments := HardSplitLoop(t, text, budget, out);
  }

  lemma Slices(s: string, a: nat, k: nat)
    requires a + k <= |s|
    ensures s[a..][..k] == s[a..a + k] && s[a..][k..] == s[a + k..]
  {
  }

  lemma ParagraphsUnfold(text: string)
    requires text != []
    ensures var at := FindBreak(text, 0);
            Paragraphs(text) == if at == |text| then [text] else [text[..at + 2]] + Paragraphs(text[at + 2..])
  {
  }

  lemma NextParagraph(text: string, start: nat)
    requires start < |text|
    ensures var at := FindBreak(text, start);
            Paragraphs(text[start..]) ==
              if at == |text| then [text[start..]] else [text[start..at + 2]] + Paragraphs(text[at + 2..])
  {
    hide FindBreak, Paragraphs;
    FindBreakShift(text, start, start);
    ParagraphsUnfold(text[start..]);
    var at := FindBreak(text, start);
    if at < |text| {
      Slices(text, start, at + 2 - start);
    }
  }

  lemma Regroup(pieces: seq<string>, next: string, rest: seq<string>)
    ensures (pieces + [next]) + rest == pieces + ([next] + rest)
  {
  }

  method CutParagraphs(text: string) returns (pieces: seq<string>)
    ensures pieces == Paragraphs(text)
  {
    hide Paragraphs, FindBreak;
    pieces := [];
    var start := 0;
    assert text[0..] == text;
    var at := FindBreak(text, 0);
    while at < |text|
      invariant start <= |text| && pieces + Paragraphs(text[start..]) == Paragraphs(text)
      invariant at == FindBreak(text, start)
      decreases |text| - start
    {
      NextParagraph(text, start);
      Regroup(pieces, text[start..at + 2], Paragraphs(text[at + 2..]));
      pieces := pieces + [text[start..at + 2]];
      start := at + 2;
      at := FindBreak(text, start);
    }
    if start < |text| {
      NextParagraph(text, start);
      pieces := pieces + [text[start..]];
    } else {
      assert text[start..] == "";
      NoParagraphs();
    }
  }

  lemma NoParagraphs()
    ensures Paragraphs("") == []
  {
  }

  method CutPieces(kind: Boundary, text: string) returns (pieces: seq<string>)
    ensures pieces == Pieces(kind, text)
  {
    hide Pieces, Ends;
    pieces := [];
    var start := 0;
    assert text[0..] == text;
    for i := 0 to |text|
      invariant start <= i && pieces + Pieces(kind, text[start..]) == Pieces(kind, text)
      invariant forall e :: start < e <= i ==> !Ends(kind, text, e)
    {
      if Ends(kind, text, i + 1) {
        NextPiece(kind, text, start, i + 1);
        Regroup(pieces, text[start..i + 1], Pieces(kind, text[i + 1..]));
        pieces := pieces + [text[start..i + 1]];
        start := i + 1;
      }
    }
    NoPieces(kind);
    if start < |text| {
      NextPiece(kind, text, start, |text|);
      assert text[start..|text|] == text[start..] && text[|text|..] == "";
      pieces := pieces + [text[start..]];
    } else {
      assert text[start..] == "";
    }
  }

  lemma NoPieces(kind: Boundary)
    ensures Pieces(kind, "") == []
  {
  }

  method SplitOnSeparator(t: Tokens, text: string, budget: nat, out: seq<string>) returns (found: bool, segments: seq<string>)
    requires Sound(t)
    ensures found <==> |Paragraphs(text)| > 1
    ensures !found ==> segments == out
    ensures found ==> (forall i :: 0 <= i < |Paragraphs(text)| ==> |Paragraphs(text)[i]| < |text|)
                      && segments == out + AtomicAll(t, Paragraphs(text), budget, |text|)
    decreases |text|, 1
  {
    var pieces := CutParagraphs(text);
    if |pieces| <= 1 {
      return false, out;
    }
    ParagraphsTile(text);
    segments := PushAll(t, pieces, text, budget, out);
    found := true;
  }

  method SplitOnBoundaries(t: Tokens, kind: Boundary, text: string, budget: nat, out: seq<string>)
    returns (found: bool, segments: seq<string>)
    requires Sound(t)
    ensures found <==> |Pieces(kind, text)| > 1
    ensures !found ==> segments == out
    ensures found ==> (forall i :: 0 <= i < |Pieces(kind, text)| ==> |Pieces(kind, text)[i]| < |text|)
                      && segments == out + AtomicAll(t, Pieces(kind, text), budget, |text|)
    decreases |text|, 1
  {
    var pieces := CutPieces(kind, text);
    if |pieces| <= 1 {
      return false, out;
    }
    PiecesTile(kind, text);
    segments := PushAll(t, pieces, text, budget, out);
    found := true;
  }

  method PushAll(t: Tokens, pieces: seq<string>, text: string, budget: nat, out: seq<string>) returns (segments: seq<string>)
    requires Sound(t) && Tile(pieces, text) && |pieces| > 1
    ensures forall i :: 0 <= i < |pieces| ==> |pieces[i]| < |text|
    ensures segments == out + AtomicAll(t, pieces, budget, |text|)
    decreases |text|, 0
  {
    hide Tile, Atomic;
    TileShorter(pieces, text);
    segments := out;
    for i := 0 to |pieces|
      invariant segments == out + AtomicAll(t, pieces[..i], budget, |text|)
    {
      assert pieces[..i + 1][..i] == pieces[..i];
      segments := PushAtomicSegments(t, pieces[i], budget, segments);
    }
    assert pieces[..|pieces|] == pieces;
  }

  method HardSplitLoop(t: Tokens, text: string, budget: nat, out: seq<string>) returns (segments: seq<string>)
    requires Sound(t)
    ensures segments == out + HardSplit(t, text, budget)
  {
    segments := out;
    var rest := text;
    while rest != []
      invariant segments + HardSplit(t, rest, budget) == out + HardSplit(t, text, budget)
      decreases |rest|
    {
      var piece := t.truncate(rest, budget);
      if piece == [] {
        piece := rest[..1];
      }
      segments := segments + [piece];
      rest := rest[|piece|..];
    }
  }

  // ---------- packing ----------

  /** Total weight of some segments. */
  function Weight(t: Tokens, segments: seq<string>): nat {
    if segments == [] then 0 else Weight(t, segments[..|segments| - 1]) + t.est(segments[|segments| - 1])
  }

  function SaturatingAdd(a: nat, b: nat): nat {
    if a + b > U32_MAX then U32_MAX else a + b
  }

  function Max(a: nat, b: nat): nat {
    if a < b then b else a
  }

  /** Weights of a split: the wanted and the largest overlap, and what is left for a segment. */
  function OverlapBudget(budget: nat): nat {
    Max(budget * OVERLAP_PERCENT / 100, 1)
  }

  function OverlapCap(budget: nat): nat {
    Max(budget * OVERLAP_MAX_PERCENT / 100, OverlapBudget(budget))
  }

  function SegmentBudget(budget: nat): nat {
    Max(if OverlapCap(budget) < budget then budget - OverlapCap(budget) else 0, 1)
  }

  /** How many trailing segments reach the wanted overlap without exceeding the cap. */
  function Trailing(t: Tokens, cur: seq<string>, acc: nat, wanted: nat, cap: nat): (take: nat)
    ensures take <= |cur|
  {
    if cur == [] then 0
    else
      var w := acc + t.est(cur[|cur| - 1]);
      if w > cap then 0
      else if w >= wanted then 1
      else 1 + Trailing(t, cur[..|cur| - 1], w, wanted, cap)
  }

  /** How many trailing segments the next piece repeats: never all of them. */
  function OverlapLen(t: Tokens, cur: seq<string>, wanted: nat, cap: nat): (take: nat)
    ensures cur != [] ==> take < |cur|
  {
    if |cur| <= 1 then 0
    else
      var take := Trailing(t, cur, 0, wanted, cap);
      if take >= |cur| then |cur| - 1 else take
  }

  ghost predicate InRange(windows: seq<(nat, nat)>, n: nat) {
    forall i :: 0 <= i < |windows| ==> windows[i].0 <= windows[i].1 <= n
  }

  /** Greedy packing of the segments from `b` on, with the segments from `a` up to `b` already in the current piece. */
  function Pack(t: Tokens, segments: seq<string>, budget: nat, a: nat, b: nat): (windows: seq<(nat, nat)>)
    requires a <= b <= |segments|
    ensures InRange(windows, |segments|)
    decreases |segments| - b
  {
    if b == |segments| then
      if a < b then [(a, b)] else []
    else if a < b && Weight(t, segments[a..b]) + t.est(segments[b]) > budget then
      [(a, b)] + Pack(t, segments, budget, b - OverlapLen(t, segments[a..b], OverlapBudget(budget), OverlapCap(budget)), b + 1)
    else Pack(t, segments, budget, a, b + 1)
  }

  function Joined(segments: seq<string>, windows: seq<(nat, nat)>): seq<string>
    requires InRange(windows, |segments|)
  {
    if windows == [] then [] else [Concat(segments[windows[0].0..windows[0].1])] + Joined(segments, windows[1..])
  }

  function Budget(maxTokens: nat): nat {
    Max(maxTokens, 1)
  }

  /** The segments of a text that does not fit. */
  function Segments(t: Tokens, text: string, maxTokens: nat): seq<string>
    requires Sound(t)
  {
    Atomic(t, text, SegmentBudget(Budget(maxTokens)))
  }

  function Windows(t: Tokens, text: string, maxTokens: nat): (windows: seq<(nat, nat)>)
    requires Sound(t)
    ensures InRange(windows, |Segments(t, text, maxTokens)|)
  {
    Pack(t, Segments(t, text, maxTokens), Budget(maxTokens), 0, 0)
  }

  /** The text has to be cut into several pieces. */
  predicate Cut(t: Tokens, text: string, maxTokens: nat)
    requires Sound(t)
  {
    t.est(text) > Budget(maxTokens) && |Segments(t, text, maxTokens)| > 1
  }

  /** The pieces of a text. */
  function SplitPieces(t: Tokens, text: string, maxTokens: nat): seq<string>
    requires Sound(t)
  {
    if text != [] && Cut(t, text, maxTokens) then Joined(Segments(t, text, maxTokens), Windows(t, text, maxTokens))
    else [text]
  }

  // ---------- what the windows promise ----------

  lemma {:induction false} WeightAppend(t: Tokens, a: seq<string>, b: seq<string>)
    ensures Weight(t, a + b) == Weight(t, a) + Weight(t, b)
  {
    if b == [] {
      assert a + b == a;
    } else {
      WeightAppend(t, a, b[..|b| - 1]);
      assert (a + b)[..|a + b| - 1] == a + b[..|b| - 1];
    }
  }

  /** A piece weighs at most as much as its segments. */
  lemma {:induction false} ConcatWeight(t: Tokens, segments: seq<string>)
    requires Sound(t) && segments != []
    ensures t.est(Concat(segments)) <= Weight(t, segments)
  {
    var front, last := segments[..|segments| - 1], segments[|segments| - 1];
    if front == [] {
      assert Concat(segments) == last;
    } else {
      ConcatWeight(t, front);
    }
  }

  /** The trailing segments taken weigh at most the cap. */
  lemma {:induction false} TrailingWeight(t: Tokens, cur: seq<string>, acc: nat, wanted: nat, cap: nat)
    requires acc <= cap
    ensures acc + Weight(t, cur[|cur| - Trailing(t, cur, acc, wanted, cap)..]) <= cap
  {
    if cur != [] {
      var front, last := cur[..|cur| - 1], cur[|cur| - 1];
      var w := acc + t.est(last);
      if w <= cap {
        var take := Trailing(t, cur, acc, wanted, cap);
        if w < wanted {
          TrailingWeight(t, front, w, wanted, cap);
        }
        var taken := cur[|cur| - take..];
        assert taken[|taken| - 1] == last && taken[..|taken| - 1] == cur[|cur| - take..|cur| - 1];
        assert w < wanted ==> cur[|cur| - take..|cur| - 1] == front[|front| - (take - 1)..];
      }
    }
  }

  lemma {:induction false} SuffixWeight(t: Tokens, s: seq<string>, k: nat)
    requires k <= |s|
    ensures Weight(t, s[k..]) <= Weight(t, s)
  {
    WeightAppend(t, s[..k], s[k..]);
    assert s == s[..k] + s[k..];
  }

  /** The overlap weighs at most the cap. */
  lemma OverlapWeight(t: Tokens, cur: seq<string>, wanted: nat, cap: nat)
    requires cur != []
    ensures Weight(t, cur[|cur| - OverlapLen(t, cur, wanted, cap)..]) <= cap
  {
    if |cur| > 1 {
      var take := Trailing(t, cur, 0, wanted, cap);
      TrailingWeight(t, cur, 0, wanted, cap);
      if take >= |cur| {
        var all := cur[|cur| - take..];
        SuffixWeight(t, all, 1);
        assert all[1..] == cur[1..];
      }
    }
  }

  lemma NoWeight(t: Tokens)
    ensures Weight(t, []) == 0
  {
  }

  lemma LastTaken(t: Tokens, cur: seq<string>, k: nat)
    requires 0 < k <= |cur|
    ensures Weight(t, cur[|cur| - k..]) == Weight(t, cur[..|cur| - 1][|cur| - k..]) + t.est(cur[|cur| - 1])
  {
    var taken := cur[|cur| - k..];
    assert taken[..k - 1] == cur[..|cur| - 1][|cur| - k..] && taken[k - 1] == cur[|cur| - 1];
  }

  /**
   * Taking `take` trailing segments is enough: they weigh what is wanted, or are all there is, or
   * one more exceeds the cap. And it is no more than enough: without the first of them something
   * is missing.
   */
  ghost predicate Enough(t: Tokens, cur: seq<string>, take: nat, acc: nat, wanted: nat, cap: nat) {
    take <= |cur|
    && (acc + Weight(t, cur[|cur| - take..]) >= wanted || take == |cur| || acc + Weight(t, cur[|cur| - take - 1..]) > cap)
    && (take > 0 ==> acc + Weight(t, cur[|cur| - take + 1..]) < wanted)
  }

  lemma EnoughStep(t: Tokens, cur: seq<string>, take: nat, acc: nat, wanted: nat, cap: nat)
    requires cur != [] && Enough(t, cur[..|cur| - 1], take, acc + t.est(cur[|cur| - 1]), wanted, cap)
    requires acc + t.est(cur[|cur| - 1]) < wanted
    ensures Enough(t, cur, take + 1, acc, wanted, cap)
  {
    hide Weight;
    LastTaken(t, cur, take + 1);
    if take > 0 {
      LastTaken(t, cur, take);
    } else {
      assert cur[|cur|..] == [];
      NoWeight(t);
    }
    if take + 1 < |cur| {
      LastTaken(t, cur, take + 2);
    }
  }

  lemma EnoughOne(t: Tokens, cur: seq<string>, acc: nat, wanted: nat, cap: nat)
    requires cur != [] && acc < wanted
    ensures acc + t.est(cur[|cur| - 1]) > cap ==> Enough(t, cur, 0, acc, wanted, cap)
    ensures acc + t.est(cur[|cur| - 1]) >= wanted ==> Enough(t, cur, 1, acc, wanted, cap)
  {
    LastTaken(t, cur, 1);
    assert cur[..|cur| - 1][|cur| - 1..] == [] && cur[|cur|..] == [];
  }

  /** The overlap taken is long enough. */
  lemma {:induction false} TrailingReaches(t: Tokens, cur: seq<string>, acc: nat, wanted: nat, cap: nat)
    requires acc < wanted
    ensures Enough(t, cur, Trailing(t, cur, acc, wanted, cap), acc, wanted, cap)
  {
    hide Enough;
    if cur != [] {
      var w := acc + t.est(cur[|cur| - 1]);
      EnoughOne(t, cur, acc, wanted, cap);
      if w <= cap && w < wanted {
        TrailingReaches(t, cur[..|cur| - 1], w, wanted, cap);
        EnoughStep(t, cur, Trailing(t, cur[..|cur| - 1], w, wanted, cap), acc, wanted, cap);
      }
    } else {
      EnoughNone(t, acc, wanted, cap);
    }
  }

  /**
   * The next piece repeats what reaches the wanted weight, and no more: less only when it would
   * otherwise repeat the whole piece or exceed the cap.
   */
  lemma OverlapReaches(t: Tokens, cur: seq<string>, wanted: nat, cap: nat)
    requires |cur| > 1 && wanted > 0
    ensures var take := OverlapLen(t, cur, wanted, cap);
            && (|| Weight(t, cur[|cur| - take..]) >= wanted
                || take == |cur| - 1
                || Weight(t, cur[|cur| - take - 1..]) > cap)
            && (take > 0 ==> Weight(t, cur[|cur| - take + 1..]) < wanted)
  {
    hide Weight, Trailing;
    TrailingReaches(t, cur, 0, wanted, cap);
    var take := OverlapLen(t, cur, wanted, cap);
    if Trailing(t, cur, 0, wanted, cap) == |cur| && take > 0 {
      SuffixWeight(t, cur[1..], 1);
      assert cur[1..][1..] == cur[|cur| - take + 1..];
    }
  }

  lemma EnoughNone(t: Tokens, acc: nat, wanted: nat, cap: nat)
    ensures Enough(t, [], 0, acc, wanted, cap)
  {
  }

  /** A window starts inside its predecessor, after its start, and ends after its end. */
  predicate Follows(w: (nat, nat), next: (nat, nat)) {
    w.0 < next.0 <= w.1 < next.1
  }

  /** Windows start at the first segment, end at the last, and each follows its predecessor. */
  ghost predicate Linked(windows: seq<(nat, nat)>, n: nat) {
    && windows != [] && windows[0].0 == 0 && windows[|windows| - 1].1 == n
    && (forall i :: 0 <= i < |windows| ==> windows[i].0 < windows[i].1 <= n)
    && (forall i :: 0 <= i < |windows| - 1 ==> Follows(windows[i], windows[i + 1]))
  }

  ghost predicate LinkedFrom(windows: seq<(nat, nat)>, a: nat, b: nat, n: nat) {
    windows != [] && var first := windows[0];
    && first.0 == a && b <= first.1 && first.0 < first.1 <= n
    && if |windows| == 1 then first.1 == n
       else Follows(first, windows[1]) && LinkedFrom(windows[1..], windows[1].0, first.1 + 1, n)
  }

  lemma {:induction false} LinkedAt(windows: seq<(nat, nat)>, a: nat, b: nat, n: nat, i: nat)
    requires LinkedFrom(windows, a, b, n) && i < |windows|
    ensures windows[i].0 < windows[i].1 <= n
    ensures if i == |windows| - 1 then windows[i].1 == n else Follows(windows[i], windows[i + 1])
  {
    if i > 0 {
      LinkedAt(windows[1..], windows[1].0, windows[0].1 + 1, n, i - 1);
    }
  }

  lemma {:induction false} PackLinked(t: Tokens, segments: seq<string>, budget: nat, a: nat, b: nat)
    requires a <= b <= |segments| && a < |segments|
    ensures LinkedFrom(Pack(t, segments, budget, a, b), a, b, |segments|)
    decreases |segments| - b
  {
    hide Weight, OverlapLen, OverlapBudget, OverlapCap;
    if b < |segments| {
      if a < b && Weight(t, segments[a..b]) + t.est(segments[b]) > budget {
        var take := OverlapLen(t, segments[a..b], OverlapBudget(budget), OverlapCap(budget));
        var rest := Pack(t, segments, budget, b - take, b + 1);
        PackLinked(t, segments, budget, b - take, b + 1);
        assert ([(a, b)] + rest)[1..] == rest;
      } else {
        PackLinked(t, segments, budget, a, b + 1);
      }
    }
  }

  /**
   * Two neighbours share segments of bounded weight, and the first ends only because the next
   * segment did not fit. What they share reaches the wanted weight with no segment to spare; it
   * is less only when the second would repeat the whole first or exceed the cap.
   */
  ghost predicate TightPair(t: Tokens, segments: seq<string>, w: (nat, nat), next: (nat, nat), budget: nat) {
    && w.0 < next.0 <= w.1 < |segments|
    && Weight(t, segments[next.0..w.1]) <= OverlapCap(budget)
    && Weight(t, segments[w.0..w.1]) + t.est(segments[w.1]) > budget
    && (|| Weight(t, segments[next.0..w.1]) >= OverlapBudget(budget)
        || next.0 == w.0 + 1
        || Weight(t, segments[next.0 - 1..w.1]) > OverlapCap(budget))
    && (next.0 < w.1 ==> Weight(t, segments[next.0 + 1..w.1]) < OverlapBudget(budget))
  }

  ghost predicate Tight(t: Tokens, segments: seq<string>, windows: seq<(nat, nat)>, budget: nat) {
    |windows| > 1 ==> TightPair(t, segments, windows[0], windows[1], budget) && Tight(t, segments, windows[1..], budget)
  }

  lemma {:induction false} TightAt(t: Tokens, segments: seq<string>, windows: seq<(nat, nat)>, budget: nat, i: nat)
    requires Tight(t, segments, windows, budget) && i + 1 < |windows|
    ensures TightPair(t, segments, windows[i], windows[i + 1], budget)
  {
    if i > 0 {
      TightAt(t, segments, windows[1..], budget, i - 1);
    }
  }

  lemma OverlapIsTight(t: Tokens, segments: seq<string>, a: nat, b: nat, budget: nat)
    requires a < b < |segments| && Weight(t, segments[a..b]) + t.est(segments[b]) > budget
    ensures var take := OverlapLen(t, segments[a..b], OverlapBudget(budget), OverlapCap(budget));
            TightPair(t, segments, (a, b), (b - take, b + 1), budget)
  {
    hide Weight, Trailing;
    var cur := segments[a..b];
    var wanted := OverlapBudget(budget);
    var take := OverlapLen(t, cur, wanted, OverlapCap(budget));
    OverlapWeight(t, cur, wanted, OverlapCap(budget));
    assert cur[|cur| - take..] == segments[b - take..b];
    if |cur| > 1 {
      OverlapReaches(t, cur, wanted, OverlapCap(budget));
      assert take < |cur| ==> cur[|cur| - take - 1..] == segments[b - take - 1..b];
      assert take > 0 ==> cur[|cur| - take + 1..] == segments[b - take + 1..b];
    }
  }

  lemma {:induction false} PackTight(t: Tokens, segments: seq<string>, budget: nat, a: nat, b: nat)
    requires a <= b <= |segments| && a < |segments|
    ensures Tight(t, segments, Pack(t, segments, budget, a, b), budget)
    decreases |segments| - b
  {
    hide Weight, OverlapLen, OverlapBudget, OverlapCap;
    if b < |segments| {
      if a < b && Weight(t, segments[a..b]) + t.est(segments[b]) > budget {
        var cur := segments[a..b];
        var take := OverlapLen(t, cur, OverlapBudget(budget), OverlapCap(budget));
        OverlapIsTight(t, segments, a, b, budget);
        var rest := Pack(t, segments, budget, b - take, b + 1);
        PackTight(t, segments, budget, b - take, b + 1);
        PackLinked(t, segments, budget, b - take, b + 1);
        assert ([(a, b)] + rest)[1..] == rest;
      } else {
        PackTight(t, segments, budget, a, b + 1);
      }
    }
  }

  /** Above one token an overlap and a segment fit together. */
  lemma Headroom(budget: nat)
    requires budget >= 1
    ensures budget >= 2 ==> OverlapCap(budget) + SegmentBudget(budget) <= budget
    ensures SegmentBudget(budget) <= budget
  {
  }

  ghost predicate Light(t: Tokens, segments: seq<string>, budget: nat) {
    forall i :: 0 <= i < |segments| ==> 0 < t.est(segments[i]) <= SegmentBudget(budget)
  }

  ghost predicate AllWithin(t: Tokens, segments: seq<string>, windows: seq<(nat, nat)>, budget: nat)
    requires InRange(windows, |segments|)
  {
    forall w :: w in windows ==> w.0 <= w.1 <= |segments| && Weight(t, segments[w.0..w.1]) <= budget
  }

  lemma WeightExtend(t: Tokens, segments: seq<string>, a: nat, b: nat)
    requires a <= b < |segments|
    ensures Weight(t, segments[a..b + 1]) == Weight(t, segments[a..b]) + t.est(segments[b])
  {
    assert segments[a..b + 1][..b - a] == segments[a..b];
  }

  lemma OneWeight(t: Tokens, segments: seq<string>, b: nat)
    requires b < |segments|
    ensures Weight(t, segments[b..b + 1]) == t.est(segments[b]) && Weight(t, segments[b..b]) == 0
  {
    WeightExtend(t, segments, b, b);
  }

  lemma {:induction false} PackWithin(t: Tokens, segments: seq<string>, budget: nat, a: nat, b: nat)
    requires a <= b <= |segments| && budget >= 1 && Light(t, segments, budget)
    requires Weight(t, segments[a..b]) <= budget && (budget == 1 ==> b <= a + 1)
    ensures AllWithin(t, segments, Pack(t, segments, budget, a, b), budget)
    decreases |segments| - b
  {
    hide Weight, OverlapBudget, OverlapCap, SegmentBudget;
    if b < |segments| {
      Headroom(budget);
      var cur := segments[a..b];
      if a < b && Weight(t, cur) + t.est(segments[b]) > budget {
        var take := OverlapLen(t, cur, OverlapBudget(budget), OverlapCap(budget));
        assert budget == 1 ==> take == 0;
        hide OverlapLen;
        OverlapWeight(t, cur, OverlapBudget(budget), OverlapCap(budget));
        assert cur[|cur| - take..] == segments[b - take..b];
        WeightExtend(t, segments, b - take, b);
        OneWeight(t, segments, b);
        PackWithin(t, segments, budget, b - take, b + 1);
      } else {
        hide OverlapLen;
        WeightExtend(t, segments, a, b);
        if a == b {
          OneWeight(t, segments, b);
        } else if budget == 1 {
          OneWeight(t, segments, a);
        }
        PackWithin(t, segments, budget, a, b + 1);
      }
    }
  }

  // ---------- the split ----------

  /** Every character weighs at most what is left for a segment. */
  ghost predicate LightCharacters(t: Tokens, text: string, budget: nat) {
    forall c :: c in text ==> t.est([c]) <= SegmentBudget(budget)
  }

  lemma {:induction false} PieceOccurs(pieces: seq<string>, i: nat) returns (at: nat)
    requires i < |pieces|
    ensures at + |pieces[i]| <= |Concat(pieces)| && Concat(pieces)[at..at + |pieces[i]|] == pieces[i]
  {
    if i == |pieces| - 1 {
      at := |Concat(pieces[..i])|;
    } else {
      at := PieceOccurs(pieces[..|pieces| - 1], i);
    }
  }

  lemma LightSegments(t: Tokens, text: string, maxTokens: nat)
    requires Sound(t) && LightCharacters(t, text, Budget(maxTokens))
    ensures Light(t, Segments(t, text, maxTokens), Budget(maxTokens))
  {
    hide Atomic, SegmentBudget, Concat;
    var segments := Segments(t, text, maxTokens);
    AtomicTiles(t, text, SegmentBudget(Budget(maxTokens)));
    forall i | 0 <= i < |segments| ensures 0 < t.est(segments[i]) <= SegmentBudget(Budget(maxTokens)) {
      assert segments[i] != [] && Fits(t, segments[i], SegmentBudget(Budget(maxTokens)));
      if |segments[i]| == 1 {
        var at := PieceOccurs(segments, i);
        assert segments[i] == [text[at]];
      }
    }
  }

  lemma {:induction false} JoinedAt(segments: seq<string>, windows: seq<(nat, nat)>, i: nat)
    requires InRange(windows, |segments|) && i < |windows|
    ensures |Joined(segments, windows)| == |windows|
    ensures Joined(segments, windows)[i] == Concat(segments[windows[i].0..windows[i].1])
  {
    if i > 0 {
      JoinedAt(segments, windows[1..], i - 1);
    } else if |windows| > 1 {
      JoinedAt(segments, windows[1..], 0);
    }
  }

  /** A text of light characters that is too heavy is always cut. */
  lemma LightIsCut(t: Tokens, text: string, maxTokens: nat)
    requires Sound(t) && LightCharacters(t, text, Budget(maxTokens)) && t.est(text) > Budget(maxTokens) && text != []
    ensures Cut(t, text, maxTokens)
  {
    hide SegmentBudget, Atomic;
    LightSegments(t, text, maxTokens);
    Headroom(Budget(maxTokens));
    AtomicTiles(t, text, SegmentBudget(Budget(maxTokens)));
    TileShorter(Segments(t, text, maxTokens), text);
  }

  /** When every character is light enough, every piece fits the budget, for every budget down to one token. */
  lemma PiecesFit(t: Tokens, text: string, maxTokens: nat, i: nat)
    requires Sound(t) && LightCharacters(t, text, Budget(maxTokens)) && text != []
    requires i < |SplitPieces(t, text, maxTokens)|
    ensures t.est(SplitPieces(t, text, maxTokens)[i]) <= Budget(maxTokens)
  {
    hide SegmentBudget, Atomic, OverlapCap, Concat;
    var budget, segments, windows := Budget(maxTokens), Segments(t, text, maxTokens), Windows(t, text, maxTokens);
    if t.est(text) > budget {
      LightIsCut(t, text, maxTokens);
      LightSegments(t, text, maxTokens);
      NoWeight(t);
      assert segments[0..0] == [];
      PackWithin(t, segments, budget, 0, 0);
      PackLinked(t, segments, budget, 0, 0);
      JoinedLength(segments, windows);
      LinkedAt(windows, 0, 0, |segments|, i);
      JoinedAt(segments, windows, i);
      assert windows[i] in windows;
      ConcatWeight(t, segments[windows[i].0..windows[i].1]);
    }
  }

  lemma {:induction false} JoinedLength(segments: seq<string>, windows: seq<(nat, nat)>)
    requires InRange(windows, |segments|)
    ensures |Joined(segments, windows)| == |windows|
  {
    if windows != [] {
      JoinedLength(segments, windows[1..]);
    }
  }

  /**
   * A text that is cut becomes windows over a tiling of it: nothing is lost or reordered, no
   * piece repeats its whole predecessor, overlaps are bounded, and a piece ends only where the
   * next segment would not fit.
   */
  lemma PiecesAreWindows(t: Tokens, text: string, maxTokens: nat)
    requires Sound(t) && text != [] && Cut(t, text, maxTokens)
    ensures var segments, windows, pieces := Segments(t, text, maxTokens), Windows(t, text, maxTokens), SplitPieces(t, text, maxTokens);
            && Tile(segments, text) && AllFit(t, segments, SegmentBudget(Budget(maxTokens)))
            && Linked(windows, |segments|)
            && |pieces| == |windows|
            && (forall i :: 0 <= i < |windows| ==> pieces[i] == Concat(segments[windows[i].0..windows[i].1]))
            && (forall i :: 0 <= i < |windows| - 1 ==> TightPair(t, segments, windows[i], windows[i + 1], Budget(maxTokens)))
  {
    hide Atomic, Pack, Tight, LinkedFrom, TightPair, Follows, Tile, AllFit, SegmentBudget, Concat;
    var budget, segments, windows := Budget(maxTokens), Segments(t, text, maxTokens), Windows(t, text, maxTokens);
    AtomicTiles(t, text, SegmentBudget(budget));
    PackLinked(t, segments, budget, 0, 0);
    PackTight(t, segments, budget, 0, 0);
    JoinedLength(segments, windows);
    FirstWindow(windows, |segments|);
    forall i | 0 <= i < |windows|
      ensures windows[i].0 < windows[i].1 <= |segments|
      ensures if i == |windows| - 1 then windows[i].1 == |segments| else Follows(windows[i], windows[i + 1])
    {
      LinkedAt(windows, 0, 0, |segments|, i);
    }
    LinkedAt(windows, 0, 0, |segments|, |windows| - 1);
    forall i | 0 <= i < |windows| ensures Joined(segments, windows)[i] == Concat(segments[windows[i].0..windows[i].1]) {
      JoinedAt(segments, windows, i);
    }
    forall i | 0 <= i < |windows| - 1 ensures TightPair(t, segments, windows[i], windows[i + 1], budget) {
      TightAt(t, segments, windows, budget, i);
    }
  }

  lemma FirstWindow(windows: seq<(nat, nat)>, n: nat)
    requires LinkedFrom(windows, 0, 0, n)
    ensures windows != [] && windows[0].0 == 0
  {
  }

  /** The segments a window adds to its predecessor, for the windows from the `i`-th on. */
  function NewSegments(segments: seq<string>, windows: seq<(nat, nat)>, i: nat): seq<string>
    requires i <= |windows| && InRange(windows, |segments|)
    requires forall k :: 0 <= k < |windows| - 1 ==> windows[k].1 <= windows[k + 1].1
  {
    if i == 0 then []
    else
      var from := if i == 1 then windows[0].0 else windows[i - 2].1;
      NewSegments(segments, windows, i - 1) + segments[from..windows[i - 1].1]
  }

  /** Dropping what each piece repeats gives the text back. */
  lemma {:induction false} NewSegmentsTile(segments: seq<string>, windows: seq<(nat, nat)>, i: nat)
    requires Linked(windows, |segments|) && 0 < i <= |windows|
    ensures NewSegments(segments, windows, i) == segments[..windows[i - 1].1]
  {
    assert forall k :: 0 <= k < |windows| - 1 ==> Follows(windows[k], windows[k + 1]);
    if i > 1 {
      NewSegmentsTile(segments, windows, i - 1);
      assert Follows(windows[i - 2], windows[i - 1]);
    }
  }

  lemma PiecesRebuild(t: Tokens, text: string, maxTokens: nat)
    requires Sound(t) && text != [] && Cut(t, text, maxTokens)
    ensures var segments, windows := Segments(t, text, maxTokens), Windows(t, text, maxTokens);
            && (forall k :: 0 <= k < |windows| - 1 ==> windows[k].1 <= windows[k + 1].1)
            && Concat(NewSegments(segments, windows, |windows|)) == text
  {
    PiecesAreWindows(t, text, maxTokens);
    var segments, windows := Segments(t, text, maxTokens), Windows(t, text, maxTokens);
    hide Segments, Windows, SplitPieces, TightPair;
    assert forall k :: 0 <= k < |windows| - 1 ==> Follows(windows[k], windows[k + 1]);
    NewSegmentsTile(segments, windows, |windows|);
    assert segments[..|segments|] == segments;
  }

  /** A text of one character that weighs too much is returned as it is. */
  lemma HeavyCharacterStays(t: Tokens, text: string, maxTokens: nat)
    requires Sound(t) && |text| == 1
    ensures SplitPieces(t, text, maxTokens) == [text]
  {
    AtomicTiles(t, text, SegmentBudget(Budget(maxTokens)));
    TileShorter(Segments(t, text, maxTokens), text);
  }

  method TailOverlap(t: Tokens, cur: seq<string>, wanted: nat, cap: nat) returns (overlap: seq<string>)
    requires cap < U32_MAX
    ensures overlap == cur[|cur| - OverlapLen(t, cur, wanted, cap)..]
  {
    if |cur| <= 1 {
      return [];
    }
    var acc: nat := 0;
    var take: nat := 0;
    var i: nat := |cur|;
    assert cur[..i] == cur;
    while i > 0
      invariant i <= |cur| && take == |cur| - i && acc <= cap
      invariant Trailing(t, cur, 0, wanted, cap) == take + Trailing(t, cur[..i], acc, wanted, cap)
    {
      var w := t.est(cur[i - 1]);
      assert cur[..i][..i - 1] == cur[..i - 1];
      if SaturatingAdd(acc, w) > cap {
        break;
      }
      acc := SaturatingAdd(acc, w);
      take := take + 1;
      i := i - 1;
      if acc >= wanted {
        break;
      }
    }
    if take >= |cur| {
      take := |cur| - 1;
    }
    overlap := cur[|cur| - take..];
  }

  /** The flush condition with saturating arithmetic is the exact one. */
  lemma SaturatingFlush(weight: nat, next: nat, budget: nat)
    requires budget < U32_MAX
    ensures SaturatingAdd(SaturatingAdd(0, weight), next) > budget <==> weight + next > budget
    ensures SaturatingAdd(SaturatingAdd(0, weight), next) == SaturatingAdd(0, weight + next)
  {
  }

  lemma JoinedSplit(segments: seq<string>, a: nat, b: nat, rest: seq<(nat, nat)>)
    requires a <= b <= |segments| && InRange(rest, |segments|)
    ensures InRange([(a, b)] + rest, |segments|)
    ensures Joined(segments, [(a, b)] + rest) == [Concat(segments[a..b])] + Joined(segments, rest)
  {
    assert ([(a, b)] + rest)[1..] == rest;
  }

  /** One flush: the current piece ends, and its overlap starts the next. */
  lemma PackFlush(t: Tokens, segments: seq<string>, budget: nat, a: nat, b: nat, chunks: seq<string>)
    requires a < b < |segments| && Weight(t, segments[a..b]) + t.est(segments[b]) > budget
    ensures var cur := segments[a..b];
            var take := OverlapLen(t, cur, OverlapBudget(budget), OverlapCap(budget));
            && cur[|cur| - take..] == segments[b - take..b]
            && chunks + Joined(segments, Pack(t, segments, budget, a, b))
               == (chunks + [Concat(cur)]) + Joined(segments, Pack(t, segments, budget, b - take, b + 1))
  {
    hide Weight, OverlapLen, OverlapBudget, OverlapCap, Joined;
    var cur := segments[a..b];
    var take := OverlapLen(t, cur, OverlapBudget(budget), OverlapCap(budget));
    var rest := Pack(t, segments, budget, b - take, b + 1);
    JoinedSplit(segments, a, b, rest);
    Regroup(chunks, Concat(cur), Joined(segments, rest));
  }

  lemma PackGrow(t: Tokens, segments: seq<string>, budget: nat, a: nat, b: nat)
    requires a <= b < |segments| && (a == b || Weight(t, segments[a..b]) + t.est(segments[b]) <= budget)
    ensures Pack(t, segments, budget, a, b) == Pack(t, segments, budget, a, b + 1)
  {
    hide Weight, OverlapLen;
  }

  /** Greedy packing of the segments into pieces. */
  method PackSegments(t: Tokens, segments: seq<string>, budget: nat) returns (chunks: seq<string>)
    requires 0 < budget && budget * OVERLAP_MAX_PERCENT <= U32_MAX
    ensures chunks == Joined(segments, Pack(t, segments, budget, 0, 0))
  {
    hide OverlapLen, OverlapBudget, OverlapCap, Joined, Pack, Weight, SaturatingAdd;
    chunks := [];
    var cur: seq<string> := [];
    var curTokens: nat := 0;
    ghost var a: nat := 0;
    CapFits(budget);
    EmptyTokens(t);
    for b := 0 to |segments|
      invariant a <= b && cur == segments[a..b] && curTokens == SaturatingAdd(0, Weight(t, cur))
      invariant chunks + Joined(segments, Pack(t, segments, budget, a, b)) == Joined(segments, Pack(t, segments, budget, 0, 0))
    {
      var tokens := t.est(segments[b]);
      SaturatingFlush(Weight(t, cur), tokens, budget);
      if cur != [] && SaturatingAdd(curTokens, tokens) > budget {
        PackFlush(t, segments, budget, a, b, chunks);
        OverlapWeight(t, cur, OverlapBudget(budget), OverlapCap(budget));
        chunks := chunks + [Concat(cur)];
        ghost var take := OverlapLen(t, cur, OverlapBudget(budget), OverlapCap(budget));
        cur := TailOverlap(t, cur, OverlapBudget(budget), OverlapCap(budget));
        curTokens := Weight(t, cur);
        a := b - take;
        SaturatingSmall(curTokens);
        SaturatingFlush(curTokens, tokens, budget);
      } else {
        PackGrow(t, segments, budget, a, b);
      }
      WeightExtend(t, segments, a, b);
      assert segments[a..b + 1] == segments[a..b] + [segments[b]];
      cur := cur + [segments[b]];
      curTokens := SaturatingAdd(curTokens, tokens);
    }
    LastWindow(t, segments, budget, a);
    if cur != [] {
      chunks := chunks + [Concat(cur)];
    }
  }

  lemma EmptyTokens(t: Tokens)
    ensures SaturatingAdd(0, Weight(t, [])) == 0
  {
  }

  lemma SaturatingSmall(weight: nat)
    requires weight <= U32_MAX
    ensures SaturatingAdd(0, weight) == weight
  {
  }

  lemma CapFits(budget: nat)
    requires 0 < budget && budget * OVERLAP_MAX_PERCENT <= U32_MAX
    ensures budget < U32_MAX && OverlapCap(budget) < U32_MAX
  {
  }

  lemma LastWindow(t: Tokens, segments: seq<string>, budget: nat, a: nat)
    requires a <= |segments|
    ensures Joined(segments, Pack(t, segments, budget, a, |segments|))
         == if a < |segments| then [Concat(segments[a..|segments|])] else []
  {
    if a < |segments| {
      var none: seq<(nat, nat)> := [];
      JoinedSplit(segments, a, |segments|, none);
      assert [(a, |segments|)] + none == [(a, |segments|)];
    }
  }

  method SplitByTokenBudget(t: Tokens, text: string, maxTokens: nat) returns (chunks: seq<string>)
    requires Sound(t) && maxTokens * OVERLAP_MAX_PERCENT <= U32_MAX
    ensures chunks == SplitPieces(t, text, maxTokens)
  {
    hide Sound, Atomic, Pack, SegmentBudget;
    var budget := if maxTokens < 1 then 1 else maxTokens;
    if text == [] {
      return [""];
    }
    if t.est(text) <= budget {
      return [text];
    }
    var segments := PushAtomicSegments(t, text, SegmentBudget(budget), []);
    assert segments == Segments(t, text, maxTokens);
    if |segments| <= 1 {
      return [text];
    }
    chunks := PackSegments(t, segments, budget);
  }
}
