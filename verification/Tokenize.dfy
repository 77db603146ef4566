/** Text normalisation and character n-grams of the conversation search. */
module Tokenize {
  import opened Options
  import opened TextScan

  // ---------- normalisation ----------

  predicate IsCombiningMark(c: char) {
    var u := c as int;
    || 0x0300 <= u <= 0x036F || 0x0483 <= u <= 0x0489 || 0x0591 <= u <= 0x05BD || u == 0x05BF
    || u == 0x05C1 || u == 0x05C2 || u == 0x05C4 || u == 0x05C5 || u == 0x05C7
    || 0x0610 <= u <= 0x061A || 0x064B <= u <= 0x065F || u == 0x0670 || 0x06D6 <= u <= 0x06DC
    || 0x06DF <= u <= 0x06E4 || u == 0x06E7 || u == 0x06E8 || 0x06EA <= u <= 0x06ED || 0xFE20 <= u <= 0xFE2F
  }

  /** Decorated letters without a canonical decomposition. */
  function FoldNonDecomposing(c: char): Option<string> {
    match c
    case 'ł' => Some("l")
    case 'ø' => Some("o")
    case 'ß' => Some("ss")
    case 'æ' => Some("ae")
    case 'œ' => Some("oe")
    case 'þ' => Some("th")
    case 'ð' => Some("d")
    case 'đ' => Some("d")
    case 'ħ' => Some("h")
    case 'ı' => Some("i")
    case 'ŋ' => Some("n")
    case _ => None
  }

  /** Precomposed accented letters of Latin-1 Supplement and Latin Extended-A. */
  function StripLatinDiacritic(c: char): Option<char> {
    match c
    case 'à' | 'á' | 'â' | 'ã' | 'ä' | 'å' => Some('a')
    case 'ç' => Some('c')
    case 'è' | 'é' | 'ê' | 'ë' => Some('e')
    case 'ì' | 'í' | 'î' | 'ï' => Some('i')
    case 'ñ' => Some('n')
    case 'ò' | 'ó' | 'ô' | 'õ' | 'ö' => Some('o')
    case 'ù' | 'ú' | 'û' | 'ü' => Some('u')
    case 'ý' | 'ÿ' => Some('y')
    case 'ā' | 'ă' | 'ą' => Some('a')
    case 'ć' | 'ĉ' | 'ċ' | 'č' => Some('c')
    case 'ď' => Some('d')
    case 'ē' | 'ĕ' | 'ė' | 'ę' | 'ě' => Some('e')
    case 'ĝ' | 'ğ' | 'ġ' | 'ģ' => Some('g')
    case 'ĥ' => Some('h')
    case 'ĩ' | 'ī' | 'ĭ' | 'į' => Some('i')
    case 'ĵ' => Some('j')
    case 'ķ' => Some('k')
    case 'ĺ' | 'ļ' | 'ľ' | 'ŀ' => Some('l')
    case 'ń' | 'ņ' | 'ň' => Some('n')
    case 'ō' | 'ŏ' | 'ő' => Some('o')
    case 'ŕ' | 'ŗ' | 'ř' => Some('r')
    case 'ś' | 'ŝ' | 'ş' | 'š' => Some('s')
    case 'ţ' | 'ť' | 'ŧ' => Some('t')
    case 'ũ' | 'ū' | 'ŭ' | 'ů' | 'ű' | 'ų' => Some('u')
    case 'ŵ' => Some('w')
    case 'ŷ' => Some('y')
    case 'ź' | 'ż' | 'ž' => Some('z')
    case _ => None
  }

  function FullwidthToAscii(c: char): Option<char> {
    var u := c as int;
    if 0xFF01 <= u <= 0xFF5E then Some((u - 0xFEE0) as char)
    else if u == 0x3000 then Some(' ')
    else None
  }

  /** Full-width katakana for U+FF66 to U+FF9D, in order. */
  const HW_KATAKANA: string := "ヲァィゥェォャュョッー" + "アイウエオカキクケコサ" + "シスセソタチツテトナニ"
                               + "ヌネノハヒフヘホマミム" + "メモヤユヨラリルレロワ" + "ン"

  function HalfwidthToFullwidth(c: char): Option<char> {
    var u := c as int;
    if 0xFF66 <= u <= 0xFF9D then Some(HW_KATAKANA[u - 0xFF66]) else None
  }

  /** What one lower-cased character becomes. */
  function Folded(c: char): string {
    if IsCombiningMark(c) then ""
    else if FoldNonDecomposing(c).Some? then FoldNonDecomposing(c).value
    else if StripLatinDiacritic(c).Some? then [StripLatinDiacritic(c).value]
    else if FullwidthToAscii(c).Some? then [FullwidthToAscii(c).value]
    else if HalfwidthToFullwidth(c).Some? then [HalfwidthToFullwidth(c).value]
    else [c]
  }

  /** Every character replaced by its image, in order. */
  function FlatMap(f: char -> string, s: string): string {
    if s == [] then [] else FlatMap(f, s[..|s| - 1]) + f(s[|s| - 1])
  }

  /** Normalised text; `lower` is the Unicode lower-case mapping of a character. */
  function Normalized(lower: char -> string, text: string): string {
    FlatMap(Folded, FlatMap(lower, text))
  }

  method Normalize(lower: char -> string, text: string) returns (out: string)
    ensures out == Normalized(lower, text)
  {
    var lowered: string := "";
    for i := 0 to |text|
      invariant lowered == FlatMap(lower, text[..i])
    {
      assert text[..i + 1][..i] == text[..i];
      lowered := lowered + lower(text[i]);
    }
    assert text[..|text|] == text;
    out := "";
    for i := 0 to |lowered|
      invariant out == FlatMap(Folded, lowered[..i])
    {
      assert lowered[..i + 1][..i] == lowered[..i];
      var c := lowered[i];
      if IsCombiningMark(c) {
        continue;
      }
      if FoldNonDecomposing(c).Some? {
        out := out + FoldNonDecomposing(c).value;
      } else if StripLatinDiacritic(c).Some? {
        out := out + [StripLatinDiacritic(c).value];
      } else if FullwidthToAscii(c).Some? {
        out := out + [FullwidthToAscii(c).value];
      } else if HalfwidthToFullwidth(c).Some? {
        out := out + [HalfwidthToFullwidth(c).value];
      } else {
        out := out + [c];
      }
    }
    assert lowered[..|lowered|] == lowered;
  }

  lemma {:induction false} FlatMapConcat(f: char -> string, a: string, b: string)
    ensures FlatMap(f, a + b) == FlatMap(f, a) + FlatMap(f, b)
  {
    if b == [] {
      assert a + b == a;
    } else {
      var front, last := b[..|b| - 1], b[|b| - 1];
      FlatMapConcat(f, a, front);
      assert (a + b)[..|a + b| - 1] == a + front && (a + b)[|a + b| - 1] == last;
      assert FlatMap(f, a + b) == FlatMap(f, a + front) + f(last);
    }
  }

  lemma {:induction false} FlatMapFixed(f: char -> string, s: string)
    requires forall i :: 0 <= i < |s| ==> f(s[i]) == [s[i]]
    ensures FlatMap(f, s) == s
  {
    if s != [] {
      FlatMapFixed(f, s[..|s| - 1]);
    }
  }

  /** Normalising a text normalises its pieces: a query found verbatim is found normalised. */
  lemma NormalizedContains(lower: char -> string, text: string, piece: string)
    requires Contains(text, piece)
    ensures Contains(Normalized(lower, text), Normalized(lower, piece))
  {
    var at :| 0 <= at <= |text| && OccursAt(text, piece, at);
    var before, after := text[..at], text[at + |piece|..];
    assert text == before + piece + after;
    NormalizedConcat(lower, before + piece, after);
    NormalizedConcat(lower, before, piece);
    var b, p := Normalized(lower, before), Normalized(lower, piece);
    assert OccursAt(Normalized(lower, text), p, |b|);
  }

  lemma NormalizedConcat(lower: char -> string, a: string, b: string)
    ensures Normalized(lower, a + b) == Normalized(lower, a) + Normalized(lower, b)
  {
    FlatMapConcat(lower, a, b);
    FlatMapConcat(Folded, FlatMap(lower, a), FlatMap(lower, b));
  }

  /** Characters the tables produce: ASCII without capitals, and full-width katakana. */
  predicate IsTableImage(c: char) {
    var u := c as int;
    (0x20 <= u <= 0x7E && !(0x41 <= u <= 0x5A)) || 0x30A1 <= u <= 0x30FC
  }

  /** What idempotence needs of the lower-case mapping: it is idempotent, leaves table images alone, and lowers full-width capitals. */
  ghost predicate LowerCases(lower: char -> string) {
    && (forall c, i :: 0 <= i < |lower(c)| ==> lower(lower(c)[i]) == [lower(c)[i]])
    && (forall c :: IsTableImage(c) ==> lower(c) == [c])
    && (forall c: char :: 0xFF21 <= c as int <= 0xFF3A ==> lower(c) != [c])
  }

  lemma KatakanaImages(i: nat)
    requires i < |HW_KATAKANA|
    ensures IsTableImage(HW_KATAKANA[i])
  {
  }

  lemma TableImageFixed(d: char)
    requires IsTableImage(d)
    ensures Folded(d) == [d]
  {
    assert HalfwidthToFullwidth(d).None?;
    hide HalfwidthToFullwidth;
  }

  lemma FoldedImage(c: char, i: nat)
    requires !(0xFF21 <= c as int <= 0xFF3A) && i < |Folded(c)|
    ensures Folded(c) == [c] || IsTableImage(Folded(c)[i])
  {
    hide IsCombiningMark, FoldNonDecomposing, StripLatinDiacritic;
    if FoldNonDecomposing(c).Some? {
      FoldedLetters(c);
    } else if StripLatinDiacritic(c).Some? {
      StrippedAway(c);
    } else if 0xFF66 <= c as int <= 0xFF9D {
      KatakanaImages(c as int - 0xFF66);
    }
  }

  lemma FoldedLetters(c: char)
    requires FoldNonDecomposing(c).Some?
    ensures forall i :: 0 <= i < |FoldNonDecomposing(c).value| ==> 'a' <= FoldNonDecomposing(c).value[i] <= 'z'
  {
  }

  /** The image of a lower-case character consists of fixed characters. */
  lemma FoldedFixed(lower: char -> string, c: char, i: nat)
    requires LowerCases(lower) && lower(c) == [c] && i < |Folded(c)|
    ensures lower(Folded(c)[i]) == [Folded(c)[i]] && Folded(Folded(c)[i]) == [Folded(c)[i]]
  {
    hide Folded, IsTableImage;
    FoldedImage(c, i);
    if Folded(c) != [c] {
      TableImageFixed(Folded(c)[i]);
      assert lower(Folded(c)[i]) == [Folded(c)[i]];
    } else {
      assert Folded(c)[i] == c;
    }
  }

  lemma {:induction false} FlatMapElements(f: char -> string, s: string, i: nat) returns (j: nat, k: nat)
    requires i < |FlatMap(f, s)|
    ensures j < |s| && k < |f(s[j])| && FlatMap(f, s)[i] == f(s[j])[k]
  {
    var front := FlatMap(f, s[..|s| - 1]);
    if i < |front| {
      j, k := FlatMapElements(f, s[..|s| - 1], i);
    } else {
      j, k := |s| - 1, i - |front|;
    }
  }

  /** Normalising normalised text changes nothing. */
  lemma NormalizedIdempotent(lower: char -> string, text: string)
    requires LowerCases(lower)
    ensures Normalized(lower, Normalized(lower, text)) == Normalized(lower, text)
  {
    var lowered := FlatMap(lower, text);
    var out := Normalized(lower, text);
    forall i | 0 <= i < |out| ensures lower(out[i]) == [out[i]] && Folded(out[i]) == [out[i]] {
      var j, k := FlatMapElements(Folded, lowered, i);
      var x, y := FlatMapElements(lower, text, j);
      assert lower(lower(text[x])[y]) == [lower(text[x])[y]];
      FoldedFixed(lower, lowered[j], k);
    }
    FlatMapFixed(lower, out);
    FlatMapFixed(Folded, out);
  }

  /** A character that normal forms are free of: a mark, a letter with a diacritic, a full-width or half-width form. */
  predicate IsDecorated(c: char) {
    var u := c as int;
    || IsCombiningMark(c) || FoldNonDecomposing(c).Some? || StripLatinDiacritic(c).Some?
    || 0xFF01 <= u <= 0xFF5E || u == 0x3000 || 0xFF66 <= u <= 0xFF9D
  }

  /** A decorated character never stands for itself. */
  lemma DecoratedChanges(c: char)
    requires IsDecorated(c)
    ensures Folded(c) != [c]
  {
    if FoldNonDecomposing(c).Some? {
      FoldedAway(c);
    } else if StripLatinDiacritic(c).Some? {
      StrippedAway(c);
    } else if 0xFF66 <= c as int <= 0xFF9D {
      KatakanaImages(c as int - 0xFF66);
    }
  }

  lemma FoldedAway(c: char)
    requires FoldNonDecomposing(c).Some?
    ensures FoldNonDecomposing(c).value != [c]
  {
  }

  lemma StrippedAway(c: char)
    requires StripLatinDiacritic(c).Some?
    ensures c as int >= 0x80 && 'a' <= StripLatinDiacritic(c).value <= 'z'
  {
  }

  /** Normal forms are in lower case and free of marks, diacritics, full-width letters and half-width katakana. */
  lemma NormalizedClean(lower: char -> string, text: string, c: char)
    requires LowerCases(lower) && c in Normalized(lower, text)
    ensures lower(c) == [c] && !IsDecorated(c)
  {
    hide LowerCases, IsDecorated, Folded;
    var lowered, out := FlatMap(lower, text), Normalized(lower, text);
    var i: nat :| i < |out| && out[i] == c;
    var j, k := FlatMapElements(Folded, lowered, i);
    var x, y := FlatMapElements(lower, text, j);
    assert lower(lowered[j]) == [lowered[j]] by {
      LoweredFixed(lower, text[x], y);
    }
    FoldedFixed(lower, lowered[j], k);
    if IsDecorated(c) {
      DecoratedChanges(c);
    }
  }

  lemma LoweredFixed(lower: char -> string, c: char, i: nat)
    requires LowerCases(lower) && i < |lower(c)|
    ensures lower(lower(c)[i]) == [lower(c)[i]]
  {
  }

  lemma {:induction false} FlatMapSame(f: char -> string, a: string, b: string)
    requires |a| == |b| && forall i :: 0 <= i < |a| ==> f(a[i]) == f(b[i])
    ensures FlatMap(f, a) == FlatMap(f, b)
  {
    if a != [] {
      FlatMapSame(f, a[..|a| - 1], b[..|b| - 1]);
    }
  }

  /** Case does not matter: texts of the same letters have the same normal form. */
  lemma CaseDoesNotMatter(lower: char -> string, a: string, b: string)
    requires |a| == |b| && forall i :: 0 <= i < |a| ==> lower(a[i]) == lower(b[i])
    ensures Normalized(lower, a) == Normalized(lower, b)
  {
    FlatMapSame(lower, a, b);
  }

  lemma FlatMapOne(f: char -> string, c: char)
    ensures FlatMap(f, [c]) == f(c)
  {
    assert [c][..0] == [];
  }

  /** Neither do combining marks: a text with one has the normal form of the text without it. */
  lemma MarksDoNotMatter(lower: char -> string, before: string, mark: char, after: string)
    requires IsCombiningMark(mark) && lower(mark) == [mark]
    ensures Normalized(lower, before + [mark] + after) == Normalized(lower, before + after)
  {
    hide IsCombiningMark, Normalized;
    NormalizedConcat(lower, before + [mark], after);
    NormalizedConcat(lower, before, [mark]);
    NormalizedConcat(lower, before, after);
    OneNormalized(lower, mark, mark);
    assert Normalized(lower, before) + "" == Normalized(lower, before);
  }

  lemma OneNormalized(lower: char -> string, c: char, small: char)
    requires lower(c) == [small]
    ensures Normalized(lower, [c]) == Folded(small)
    ensures IsCombiningMark(small) ==> Folded(small) == ""
  {
    hide IsCombiningMark, FoldNonDecomposing, StripLatinDiacritic, FullwidthToAscii, HalfwidthToFullwidth;
    FlatMapOne(lower, c);
    FlatMapOne(Folded, small);
  }

  /** And neither does a diacritic: a letter with one has the normal form of its base letter. */
  lemma DiacriticsDoNotMatter(lower: char -> string, before: string, letter: char, after: string)
    requires LowerCases(lower) && lower(letter) == [letter] && StripLatinDiacritic(letter).Some? && !IsCombiningMark(letter)
    ensures var base := StripLatinDiacritic(letter).value;
            Normalized(lower, before + [letter] + after) == Normalized(lower, before + [base] + after)
  {
    hide IsCombiningMark, Normalized, StripLatinDiacritic;
    var base := StripLatinDiacritic(letter).value;
    StrippedAway(letter);
    NormalizedConcat(lower, before + [letter], after);
    NormalizedConcat(lower, before, [letter]);
    NormalizedConcat(lower, before + [base], after);
    NormalizedConcat(lower, before, [base]);
    assert IsTableImage(base);
    OneNormalized(lower, letter, letter);
    OneNormalized(lower, base, base);
    TableImageFixed(base);
    LetterFolds(letter);
  }

  lemma LetterFolds(letter: char)
    requires StripLatinDiacritic(letter).Some? && !IsCombiningMark(letter)
    ensures Folded(letter) == [StripLatinDiacritic(letter).value]
  {
    hide IsCombiningMark, FoldNonDecomposing, StripLatinDiacritic, FullwidthToAscii, HalfwidthToFullwidth;
    TablesDisjoint(letter);
  }

  lemma TablesDisjoint(c: char)
    requires StripLatinDiacritic(c).Some?
    ensures FoldNonDecomposing(c).None?
  {
    hide StripLatinDiacritic, FoldNonDecomposing;
    if c < 'ā' {
      FirstTablesDisjoint(c);
    } else {
      LaterTablesDisjoint(c);
    }
  }

  lemma FirstTablesDisjoint(c: char)
    requires StripLatinDiacritic(c).Some? && c < 'ā'
    ensures FoldNonDecomposing(c).None?
  {
  }

  lemma LaterTablesDisjoint(c: char)
    requires StripLatinDiacritic(c).Some? && c >= 'ā'
    ensures FoldNonDecomposing(c).None?
  {
  }

  // ---------- n-grams ----------

  predicate IsCjk(c: char) {
    var u := c as int;
    || 0x3040 <= u <= 0x309F || 0x30A0 <= u <= 0x30FF || 0x3400 <= u <= 0x4DBF || 0x4E00 <= u <= 0x9FFF
    || 0xF900 <= u <= 0xFAFF || 0x1100 <= u <= 0x11FF || 0xAC00 <= u <= 0xD7AF
  }

  /** Bigrams in CJK text, trigrams elsewhere. */
  function Width(cjk: bool): nat {
    if cjk then 2 else 3
  }

  /** An n-gram of one script class starts at `k`. */
  predicate IsGramAt(s: string, k: nat) {
    k < |s| && var n := Width(IsCjk(s[k]));
    k + n <= |s| && forall i :: k <= i < k + n ==> IsCjk(s[i]) == IsCjk(s[k])
  }

  function GramAt(s: string, k: nat): string
    requires IsGramAt(s, k)
  {
    s[k..k + Width(IsCjk(s[k]))]
  }

  /** The n-grams that start before `k`, in order. */
  function GramsBelow(s: string, k: nat): seq<string>
    requires k <= |s|
  {
    if k == 0 then []
    else GramsBelow(s, k - 1) + if IsGramAt(s, k - 1) then [GramAt(s, k - 1)] else []
  }

  function Grams(s: string): seq<string> {
    GramsBelow(s, |s|)
  }

  lemma {:induction false} NoGrams(s: string, from: nat, to: nat)
    requires from <= to <= |s| && forall k :: from <= k < to ==> !IsGramAt(s, k)
    ensures GramsBelow(s, to) == GramsBelow(s, from)
  {
    if from < to {
      NoGrams(s, from, to - 1);
    }
  }

  /** The walk over maximal runs of one script class. */
  method Ngrams(normalized: string) returns (out: seq<string>)
    ensures out == Grams(normalized)
  {
    out := [];
    var s := normalized;
    var i := 0;
    while i < |s|
      invariant i <= |s| && out == GramsBelow(s, i)
      invariant 0 < i < |s| ==> IsCjk(s[i - 1]) != IsCjk(s[i])
    {
      var cjk := IsCjk(s[i]);
      var j := i + 1;
      while j < |s| && IsCjk(s[j]) == cjk
        invariant i < j <= |s| && forall x :: i <= x < j ==> IsCjk(s[x]) == cjk
      {
        j := j + 1;
      }
      var n := Width(cjk);
      var first := i;
      if j - i >= n {
        for k := i to j - n + 1
          invariant out == GramsBelow(s, k)
        {
          assert IsGramAt(s, k);
          out := out + [s[k..k + n]];
        }
        first := j - n + 1;
      }
      NoGrams(s, first, j);
      i := j;
    }
  }

  lemma {:induction false} GramsBelowMembers(s: string, k: nat, g: string)
    requires k <= |s|
    ensures g in GramsBelow(s, k) <==> exists at :: 0 <= at < k && IsGramAt(s, at) && GramAt(s, at) == g
  {
    if k > 0 {
      GramsBelowMembers(s, k - 1, g);
    }
  }

  /** Exactly the windows of one script class are n-grams. */
  lemma GramsMembers(s: string, g: string)
    ensures g in Grams(s) <==> exists at :: 0 <= at < |s| && IsGramAt(s, at) && GramAt(s, at) == g
  {
    GramsBelowMembers(s, |s|, g);
  }

  lemma GramShift(text: string, piece: string, off: nat, at: nat)
    requires OccursAt(text, piece, off) && IsGramAt(piece, at)
    ensures IsGramAt(text, off + at) && GramAt(text, off + at) == GramAt(piece, at)
  {
    assert forall i :: 0 <= i < |piece| ==> piece[i] == text[off + i];
    var n := Width(IsCjk(piece[at]));
    forall i | off + at <= i < off + at + n ensures IsCjk(text[i]) == IsCjk(piece[at]) {
      assert text[i] == piece[i - off];
    }
    assert text[off + at..off + at + n] == piece[at..at + n];
  }

  /** Every n-gram of a piece is an n-gram of the whole: looking up n-grams misses no text that contains the query. */
  lemma ContainsGrams(text: string, piece: string, g: string)
    requires Contains(text, piece) && g in Grams(piece)
    ensures g in Grams(text)
  {
    hide IsGramAt, GramAt, OccursAt, Grams;
    var off :| 0 <= off <= |text| && OccursAt(text, piece, off);
    GramsMembers(piece, g);
    var at :| 0 <= at < |piece| && IsGramAt(piece, at) && GramAt(piece, at) == g;
    GramShift(text, piece, off, at);
    InText(text, off + at);
    GramsMembers(text, g);
  }

  lemma InText(s: string, k: nat)
    requires IsGramAt(s, k)
    ensures k < |s|
  {
  }
}
