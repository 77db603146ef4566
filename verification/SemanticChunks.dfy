/** Splitting one large Markdown document: by headings, then by paragraphs, then by lines. */
module SemanticChunks {
  import opened Options
  import opened SemanticLines
  import opened TextScan
  import opened Unicode

  // ---------- paragraphs ----------

  /** Runs of lines between blank lines. */
  function ParagraphsFrom(lines: seq<string>, current: string): seq<string> {
    if lines == [] then if Blank(current) then [] else [current]
    else if !Blank(lines[0]) then ParagraphsFrom(lines[1..], current + lines[0] + "\n")
    else if Blank(current) then ParagraphsFrom(lines[1..], current)
    else [current] + ParagraphsFrom(lines[1..], "")
  }

  function BlankLineParts(text: string): seq<string> {
    ParagraphsFrom(Lines(text), "")
  }

  ghost predicate NoneBlank(parts: seq<string>) {
    forall i :: 0 <= i < |parts| ==> !Blank(parts[i])
  }

  lemma {:induction false} ParagraphsKeep(lines: seq<string>, current: string)
    ensures Visible(Concat(ParagraphsFrom(lines, current))) == Visible(current) + Visible(Concat(lines))
    ensures NoneBlank(ParagraphsFrom(lines, current))
    decreases |lines|
  {
    hide Visible, Concat, Blank;
    NothingVisible();
    if lines == [] {
      BlankIsInvisible(current);
      ConcatOne(current);
    } else {
      var line, rest := lines[0], lines[1..];
      VisibleJoin([line], rest);
      assert lines == [line] + rest;
      ConcatOne(line);
      if !Blank(line) {
        ParagraphsKeep(rest, current + line + "\n");
        LineAdded(current, line);
      } else {
        BlankIsInvisible(line);
        if Blank(current) {
          ParagraphsKeep(rest, current);
        } else {
          ParagraphsKeep(rest, "");
          VisibleJoin([current], ParagraphsFrom(rest, ""));
          ConcatOne(current);
        }
      }
    }
  }

  /** Paragraphs lose nothing visible, and none is blank. */
  lemma BlankLinePartsKeep(text: string)
    ensures Visible(Concat(BlankLineParts(text))) == Visible(text)
    ensures NoneBlank(BlankLineParts(text))
  {
    ParagraphsKeep(Lines(text), "");
    LinesKeep(text);
  }

  method SplitOnBlankLines(text: string) returns (paragraphs: seq<string>)
    ensures paragraphs == BlankLineParts(text)
  {
    hide Blank;
    paragraphs := [];
    var current := "";
    var lines := Lines(text);
    assert lines[0..] == lines;
    for i := 0 to |lines|
      invariant paragraphs + ParagraphsFrom(lines[i..], current) == ParagraphsFrom(lines, "")
    {
      assert lines[i..][1..] == lines[i + 1..];
      if Blank(lines[i]) {
        if !Blank(current) {
          paragraphs := paragraphs + [current];
          current := "";
        }
      } else {
        current := current + lines[i] + "\n";
      }
    }
    if !Blank(current) {
      paragraphs := paragraphs + [current];
    }
  }

  // ---------- sections ----------

  /** A heading line and what follows it. */
  datatype Section = Section(heading: Option<string>, body: string)

  predicate IsAtxHeading(line: string) {
    "# " <= line || "## " <= line || "### " <= line || "#### " <= line || "##### " <= line || "###### " <= line
  }

  function Closed(heading: Option<string>, body: string): seq<Section> {
    if !Blank(body) || heading.Some? then [Section(heading, body)] else []
  }

  /** A blank body before the first heading is not dropped but kept for the section of that heading. */
  function AfterClosing(heading: Option<string>, body: string): string {
    if Closed(heading, body) == [] then body else ""
  }

  function SectionsFrom(lines: seq<string>, heading: Option<string>, body: string): seq<Section> {
    if lines == [] then Closed(heading, body)
    else if !IsAtxHeading(lines[0]) then SectionsFrom(lines[1..], heading, body + lines[0] + "\n")
    else Closed(heading, body) + SectionsFrom(lines[1..], Some(lines[0]), AfterClosing(heading, body))
  }

  function Sections(text: string): seq<Section> {
    SectionsFrom(Lines(text), None, "")
  }

  function Title(heading: Option<string>): string {
    if heading.Some? then heading.value else ""
  }

  /** What the sections say, headings and bodies in order. */
  function Told(sections: seq<Section>): string {
    if sections == [] then ""
    else Visible(Title(sections[0].heading)) + Visible(sections[0].body) + Told(sections[1..])
  }

  /** Section headings are heading lines. */
  ghost predicate Headed(sections: seq<Section>) {
    forall i :: 0 <= i < |sections| && sections[i].heading.Some? ==> IsAtxHeading(sections[i].heading.value)
  }

  lemma NothingTold()
    ensures Told([]) == [] && forall line: string :: Title(Some(line)) == line
  {
  }

  lemma ToldClosed(heading: Option<string>, body: string, rest: seq<Section>)
    ensures Told(Closed(heading, body) + rest) == Visible(Title(heading)) + Visible(body) + Told(rest)
    ensures Visible(AfterClosing(heading, body)) == []
  {
    hide Visible, Blank;
    NothingVisible();
    BlankIsInvisible(body);
    var closed := Closed(heading, body);
    if closed == [] {
      assert closed + rest == rest;
    } else {
      assert (closed + rest)[1..] == rest;
    }
  }

  lemma {:induction false} SectionsKeep(lines: seq<string>, heading: Option<string>, body: string)
    ensures Told(SectionsFrom(lines, heading, body)) == Visible(Title(heading)) + Visible(body) + Visible(Concat(lines))
    decreases |lines|
  {
    hide Visible, Concat, Blank, IsAtxHeading, Told, Closed, Title, AfterClosing;
    NothingVisible();
    var closed := Closed(heading, body);
    if lines == [] {
      ToldClosed(heading, body, []);
      assert closed + [] == closed;
      NothingTold();
    } else {
      var line, rest := lines[0], lines[1..];
      VisibleJoin([line], rest);
      assert lines == [line] + rest;
      ConcatOne(line);
      if !IsAtxHeading(line) {
        SectionsKeep(rest, heading, body + line + "\n");
        LineAdded(body, line);
      } else {
        var later := SectionsFrom(rest, Some(line), AfterClosing(heading, body));
        ToldClosed(heading, body, later);
        SectionsKeep(rest, Some(line), AfterClosing(heading, body));
        NothingTold();
      }
    }
  }

  lemma {:induction false} SectionsHeaded(lines: seq<string>, heading: Option<string>, body: string)
    requires heading.Some? ==> IsAtxHeading(heading.value)
    ensures Headed(SectionsFrom(lines, heading, body))
    decreases |lines|
  {
    hide IsAtxHeading, Blank;
    if lines != [] {
      if IsAtxHeading(lines[0]) {
        SectionsHeaded(lines[1..], Some(lines[0]), AfterClosing(heading, body));
      } else {
        SectionsHeaded(lines[1..], heading, body + lines[0] + "\n");
      }
    }
  }

  /** Sections lose nothing visible of the document, and their headings are heading lines. */
  lemma SectionsTell(text: string)
    ensures Told(Sections(text)) == Visible(text) && Headed(Sections(text))
  {
    hide Visible, SectionsFrom, Lines, Told, Headed;
    NothingVisible();
    SectionsKeep(Lines(text), None, "");
    SectionsHeaded(Lines(text), None, "");
    LinesKeep(text);
  }

  lemma NoLinesLeft(lines: seq<string>, heading: Option<string>, body: string)
    requires lines == []
    ensures SectionsFrom(lines, heading, body) == Closed(heading, body)
  {
  }

  lemma SectionsNext(out: seq<Section>, lines: seq<string>, i: nat, heading: Option<string>, body: string)
    requires i < |lines|
    ensures out + SectionsFrom(lines[i..], heading, body)
         == if IsAtxHeading(lines[i]) then out + Closed(heading, body) + SectionsFrom(lines[i + 1..], Some(lines[i]), AfterClosing(heading, body))
            else out + SectionsFrom(lines[i + 1..], heading, body + lines[i] + "\n")
  {
    hide IsAtxHeading, Closed, AfterClosing;
    assert lines[i..][1..] == lines[i + 1..];
  }

  method SplitOnHeadings(text: string) returns (sections: seq<Section>)
    ensures sections == Sections(text)
  {
    hide Blank, IsAtxHeading, SectionsFrom;
    sections := [];
    var heading: Option<string> := None;
    var body := "";
    var lines := Lines(text);
    assert lines[0..] == lines;
    for i := 0 to |lines|
      invariant sections + SectionsFrom(lines[i..], heading, body) == SectionsFrom(lines, None, "")
    {
      SectionsNext(sections, lines, i, heading, body);
      if IsAtxHeading(lines[i]) {
        if !Blank(body) || heading.Some? {
          sections := sections + [Section(heading, body)];
          body := "";
        } else {
          assert sections + [] == sections;
        }
        heading := Some(lines[i]);
      } else {
        body := body + lines[i] + "\n";
      }
    }
    NoLinesLeft(lines[|lines|..], heading, body);
    if !Blank(body) || heading.Some? {
      sections := sections + [Section(heading, body)];
    }
  }

  // ---------- one section ----------

  /** A piece of a section's body; the chunk made of it carries the section's heading or not. */
  datatype Piece = Piece(carries: bool, part: string)

  function Prefix(heading: Option<string>): string {
    if heading.Some? then heading.value + "\n" else ""
  }

  function Content(prefix: string, piece: Piece): string {
    Trim((if piece.carries then prefix else "") + piece.part)
  }

  function Parts(pieces: seq<Piece>): seq<string> {
    seq(|pieces|, i requires 0 <= i < |pieces| => pieces[i].part)
  }

  function Bare(parts: seq<string>): seq<Piece> {
    seq(|parts|, i requires 0 <= i < |parts| => Piece(false, parts[i]))
  }

  function Flush(prefix: string, part: string): seq<Piece> {
    if Blank(prefix + part) then [] else [Piece(true, part)]
  }

  /** The pieces emitted on meeting a paragraph, and the part gathered behind the heading afterwards. */
  function Met(para: string, prefix: string, part: string, max: nat): (seq<Piece>, string) {
    var full := ByteLen(prefix + part) + ByteLen(para) > max && !Blank(prefix + part);
    var (emitted, kept) := if full then ([Piece(true, part)], "") else ([], part);
    if ByteLen(para) > max then
      (emitted + Flush(prefix, kept) + Bare(LinePieces(para, max)), if Blank(prefix + kept) then kept else "")
    else (emitted, kept + para + "\n")
  }

  function GatherParagraphs(paras: seq<string>, prefix: string, part: string, max: nat): seq<Piece> {
    if paras == [] then Flush(prefix, part)
    else
      var (emitted, next) := Met(paras[0], prefix, part, max);
      emitted + GatherParagraphs(paras[1..], prefix, next, max)
  }

  function SectionPieces(section: Section, max: nat): seq<Piece> {
    if ByteLen(section.body) + ByteLen(Prefix(section.heading)) <= max then [Piece(true, section.body)]
    else GatherParagraphs(BlankLineParts(section.body), Prefix(section.heading), "", max)
  }

  lemma PartsJoin(a: seq<Piece>, b: seq<Piece>)
    ensures Parts(a + b) == Parts(a) + Parts(b)
  {
  }

  lemma BareParts(parts: seq<string>)
    ensures Parts(Bare(parts)) == parts
  {
  }

  /** What the pieces say besides headings. */
  function Said(pieces: seq<Piece>): string {
    Visible(Concat(Parts(pieces)))
  }

  lemma SaidMeans(pieces: seq<Piece>)
    ensures Said(pieces) == Visible(Concat(Parts(pieces)))
  {
  }

  lemma SaidJoin(a: seq<Piece>, b: seq<Piece>)
    ensures Said(a + b) == Said(a) + Said(b)
  {
    hide Visible, Concat, Parts;
    PartsJoin(a, b);
    VisibleJoin(Parts(a), Parts(b));
  }

  lemma SaidOne(piece: Piece)
    ensures Said([piece]) == Visible(piece.part) && Said([]) == []
  {
    hide Visible;
    NothingVisible();
    assert Parts([piece]) == [piece.part];
    ConcatOne(piece.part);
  }

  lemma FlushSays(prefix: string, part: string)
    ensures Said(Flush(prefix, part)) == Visible(part)
  {
    hide Visible, Blank, Said;
    SaidOne(Piece(true, part));
    if Blank(prefix + part) {
      BlankIsInvisible(prefix + part);
      VisibleConcat(prefix, part);
    }
  }

  lemma MetSays(para: string, prefix: string, part: string, max: nat)
    ensures var (emitted, next) := Met(para, prefix, part, max);
            Said(emitted) + Visible(next) == Visible(part) + Visible(para)
  {
    hide Visible, Blank, ByteLen, Said, Flush, LinePieces, Bare;
    NothingVisible();
    SaidOne(Piece(true, part));
    var full := ByteLen(prefix + part) + ByteLen(para) > max && !Blank(prefix + part);
    var first, kept := if full then [Piece(true, part)] else [], if full then "" else part;
    assert Said(first) + Visible(kept) == Visible(part);
    if ByteLen(para) > max {
      var bare := Bare(LinePieces(para, max));
      SaidJoin(first + Flush(prefix, kept), bare);
      SaidJoin(first, Flush(prefix, kept));
      FlushSays(prefix, kept);
      BareParts(LinePieces(para, max));
      LinePiecesKeep(para, max);
      SaidMeans(bare);
      if Blank(prefix + kept) {
        BlankIsInvisible(prefix + kept);
        VisibleConcat(prefix, kept);
      }
    } else {
      LineAdded(kept, para);
    }
  }

  lemma {:induction false} GatherSays(paras: seq<string>, prefix: string, part: string, max: nat)
    ensures Said(GatherParagraphs(paras, prefix, part, max)) == Visible(part) + Visible(Concat(paras))
    decreases |paras|
  {
    hide Visible, Concat, Said, Met, Flush;
    if paras == [] {
      NothingVisible();
      FlushSays(prefix, part);
    } else {
      var (emitted, next) := Met(paras[0], prefix, part, max);
      MetSays(paras[0], prefix, part, max);
      GatherSays(paras[1..], prefix, next, max);
      SaidJoin(emitted, GatherParagraphs(paras[1..], prefix, next, max));
      assert paras == [paras[0]] + paras[1..];
      VisibleJoin([paras[0]], paras[1..]);
      ConcatOne(paras[0]);
      Regroup(Said(emitted), Visible(next), Visible(part), Visible(paras[0]), Visible(Concat(paras[1..])));
    }
  }

  /** The pieces of a section say its whole body, in order and once. */
  lemma SectionSays(section: Section, max: nat)
    ensures Said(SectionPieces(section, max)) == Visible(section.body)
  {
    hide Visible, Concat, Said, GatherParagraphs, ByteLen, BlankLineParts;
    NothingVisible();
    SaidOne(Piece(true, section.body));
    BlankLinePartsKeep(section.body);
    GatherSays(BlankLineParts(section.body), Prefix(section.heading), "", max);
  }

  // ---------- sizes ----------

  /** A chunk with its heading exceeds the limit by the heading at most; one without is small. */
  predicate Bounded(prefix: string, piece: Piece, max: nat) {
    if piece.carries then ByteLen(Content(prefix, piece)) <= ByteLen(prefix) + max
    else Small(Content(prefix, piece), AtLeastOne(max))
  }

  ghost predicate AllBounded(prefix: string, pieces: seq<Piece>, max: nat) {
    forall i :: 0 <= i < |pieces| ==> Bounded(prefix, pieces[i], max)
  }

  /** A gathered part: nothing, or visible text that fits but for its last line end. */
  predicate Gathering(part: string, max: nat) {
    part != [] ==> !Blank(part) && Filled(part, max)
  }

  lemma GatheringBounded(prefix: string, part: string, max: nat)
    requires Gathering(part, max)
    ensures Bounded(prefix, Piece(true, part), max)
    ensures part != [] ==> !Blank(prefix + part)
  {
    hide Blank, ByteLen, Trim;
    if part == [] {
      assert prefix + part == prefix;
      var i, j := TrimSlice(prefix);
      SliceBytes(prefix, i, j);
    } else {
      var body := part[..|part| - 1];
      assert prefix + part == (prefix + body) + "\n";
      TrimLine(prefix + body);
      ByteLenConcat(prefix, body);
      VisibleConcat(prefix, part);
      BlankIsInvisible(part);
      BlankIsInvisible(prefix + part);
    }
  }

  lemma NothingGathered(max: nat)
    ensures Gathering("", max)
  {
  }

  lemma NextGathering(kept: string, para: string, max: nat)
    requires ByteLen(kept) + ByteLen(para) <= max && !Blank(para)
    ensures Gathering(kept + para + "\n", max)
  {
    hide Blank, ByteLen, Filled, Visible;
    LineFills(kept, para, max);
    LineAdded(kept, para);
    BlankIsInvisible(para);
    BlankIsInvisible(kept + para + "\n");
  }

  lemma BareBounded(prefix: string, para: string, max: nat)
    ensures AllBounded(prefix, Bare(LinePieces(para, max)), max)
  {
    hide Trim, ByteLen, Small, LinePieces, AtLeastOne;
    LinePiecesKeep(para, max);
    var parts := LinePieces(para, max);
    forall i | 0 <= i < |parts| ensures Bounded(prefix, Bare(parts)[i], max) {
      assert "" + parts[i] == parts[i];
    }
  }

  lemma MetBounded(para: string, prefix: string, part: string, max: nat)
    requires Gathering(part, max) && !Blank(para)
    ensures var (emitted, next) := Met(para, prefix, part, max);
            AllBounded(prefix, emitted, max) && Gathering(next, max)
  {
    hide Blank, ByteLen, Bounded, Gathering, Bare, LinePieces;
    GatheringBounded(prefix, part, max);
    BareBounded(prefix, para, max);
    NothingGathered(max);
    GatheringBounded(prefix, "", max);
    NoBytes();
    ByteLenConcat(prefix, part);
    var full := ByteLen(prefix + part) + ByteLen(para) > max && !Blank(prefix + part);
    if ByteLen(para) <= max {
      NextGathering(if full then "" else part, para, max);
    }
  }

  lemma {:induction false} GatherBounded(paras: seq<string>, prefix: string, part: string, max: nat)
    requires Gathering(part, max) && NoneBlank(paras)
    ensures AllBounded(prefix, GatherParagraphs(paras, prefix, part, max), max)
    decreases |paras|
  {
    hide Blank, Bounded, Gathering, Met;
    if paras == [] {
      GatheringBounded(prefix, part, max);
    } else {
      var (emitted, next) := Met(paras[0], prefix, part, max);
      MetBounded(paras[0], prefix, part, max);
      GatherBounded(paras[1..], prefix, next, max);
    }
  }

  /** Every chunk of a section is at most the limit and the heading with its line end, or a single character. */
  lemma SectionBounded(section: Section, max: nat)
    ensures AllBounded(Prefix(section.heading), SectionPieces(section, max), max)
  {
    hide Blank, GatherParagraphs, BlankLineParts, Trim, Prefix;
    var prefix := Prefix(section.heading);
    if ByteLen(section.body) + ByteLen(prefix) <= max {
      var s := prefix + section.body;
      var i, j := TrimSlice(s);
      SliceBytes(s, i, j);
      ByteLenConcat(prefix, section.body);
    } else {
      BlankLinePartsKeep(section.body);
      GatherBounded(BlankLineParts(section.body), prefix, "", max);
    }
  }

  // ---------- headings ----------

  predicate Leads(pieces: seq<Piece>) {
    pieces != [] && pieces[0].carries
  }

  lemma {:induction false} GatherLeads(paras: seq<string>, prefix: string, part: string, max: nat)
    requires !Blank(prefix + part) && !Blank(prefix) && NoneBlank(paras)
    ensures Leads(GatherParagraphs(paras, prefix, part, max))
    decreases |paras|
  {
    hide Blank, ByteLen, Visible;
    if paras != [] {
      var para := paras[0];
      var (emitted, next) := Met(para, prefix, part, max);
      if emitted == [] {
        assert prefix + next == prefix + part + para + "\n";
        BlankIsInvisible(prefix + part);
        LineAdded(prefix + part, para);
        BlankIsInvisible(prefix + next);
        GatherLeads(paras[1..], prefix, next, max);
      }
    }
  }

  lemma OneVisible(c: char)
    requires !IsWhitespace(c)
    ensures Visible([c]) == [c]
  {
    assert [c][..0] == [];
  }

  lemma HeadingVisible(heading: string)
    requires IsAtxHeading(heading)
    ensures !Blank(heading + "\n")
  {
    hide Visible, Trim;
    var hash := [heading[0]];
    assert heading + "\n" == hash + (heading[1..] + "\n");
    VisibleConcat(hash, heading[1..] + "\n");
    OneVisible(heading[0]);
    BlankIsInvisible(heading + "\n");
  }

  /** The first chunk of a section with a heading carries it. */
  lemma HeadingCarried(section: Section, max: nat)
    requires section.heading.Some? && IsAtxHeading(section.heading.value)
    ensures Leads(SectionPieces(section, max))
  {
    hide Blank, GatherParagraphs, BlankLineParts, ByteLen, IsAtxHeading;
    var prefix := Prefix(section.heading);
    HeadingVisible(section.heading.value);
    BlankLinePartsKeep(section.body);
    assert prefix + "" == prefix;
    if ByteLen(section.body) + ByteLen(prefix) > max {
      GatherLeads(BlankLineParts(section.body), prefix, "", max);
    }
  }

  // ---------- the document ----------

  datatype Chunk = Chunk(index: nat, content: string, heading: Option<string>)

  datatype Draft = Draft(content: string, heading: Option<string>)

  function Drafts(heading: Option<string>, pieces: seq<Piece>): seq<Draft> {
    seq(|pieces|, i requires 0 <= i < |pieces| => Draft(Content(Prefix(heading), pieces[i]), heading))
  }

  function AllDrafts(sections: seq<Section>, max: nat): seq<Draft> {
    if sections == [] then []
    else Drafts(sections[0].heading, SectionPieces(sections[0], max)) + AllDrafts(sections[1..], max)
  }

  function Kept(drafts: seq<Draft>): seq<Draft> {
    if drafts == [] then []
    else Kept(drafts[..|drafts| - 1]) + if drafts[|drafts| - 1].content == [] then [] else [drafts[|drafts| - 1]]
  }

  /** What the document is cut into: nothing for a blank one. */
  function Results(text: string, maxTokens: nat): seq<Draft> {
    if Blank(text) then [] else Kept(AllDrafts(Sections(text), maxTokens * 4))
  }

  function Contents(drafts: seq<Draft>): seq<string> {
    seq(|drafts|, i requires 0 <= i < |drafts| => drafts[i].content)
  }

  /** The second text is the first with some of the words put in, each whole. */
  ghost predicate Weaves(a: string, b: string, words: set<string>) {
    || (a == [] && b == [])
    || (a != [] && b != [] && a[|a| - 1] == b[|b| - 1] && Weaves(a[..|a| - 1], b[..|b| - 1], words))
    || (exists w :: w in words && 0 < |w| <= |b| && b[|b| - |w|..] == w && Weaves(a, b[..|b| - |w|], words))
  }

  lemma WeavesCharacter(a: string, b: string, x: char, words: set<string>)
    requires Weaves(a, b, words)
    ensures Weaves(a + [x], b + [x], words)
  {
    assert (a + [x])[..|a + [x]| - 1] == a && (b + [x])[..|b + [x]| - 1] == b;
  }

  lemma WeavesIn(a: string, b: string, w: string, words: set<string>)
    requires Weaves(a, b, words) && w in words && w != []
    ensures Weaves(a, b + w, words)
  {
    assert (b + w)[..|b + w| - |w|] == b && (b + w)[|b + w| - |w|..] == w;
  }

  /** How the second text ends: like the first, or with the word `w`. */
  lemma WeavesEnd(a: string, b: string, words: set<string>) returns (w: string)
    requires Weaves(a, b, words)
    ensures || (a == [] && b == [])
            || (w == [] && a != [] && b != [] && a[|a| - 1] == b[|b| - 1] && Weaves(a[..|a| - 1], b[..|b| - 1], words))
            || (w != [] && w in words && |w| <= |b| && b[|b| - |w|..] == w && Weaves(a, b[..|b| - |w|], words))
  {
    w := [];
    if !(a == [] && b == []) && !(a != [] && b != [] && a[|a| - 1] == b[|b| - 1] && Weaves(a[..|a| - 1], b[..|b| - 1], words)) {
      w :| w in words && 0 < |w| <= |b| && b[|b| - |w|..] == w && Weaves(a, b[..|b| - |w|], words);
    }
  }

  lemma {:induction false} WeavesJoin(a: string, b: string, c: string, d: string, words: set<string>)
    requires Weaves(a, b, words) && Weaves(c, d, words)
    ensures Weaves(a + c, b + d, words)
    decreases |d|
  {
    hide Weaves;
    var w := WeavesEnd(c, d, words);
    if c == [] && d == [] {
      assert a + c == a && b + d == b;
    } else if w == [] {
      var c', d', x := c[..|c| - 1], d[..|d| - 1], d[|d| - 1];
      WeavesJoin(a, b, c', d', words);
      WeavesCharacter(a + c', b + d', x, words);
      assert a + c == (a + c') + [x] && b + d == (b + d') + [x];
    } else {
      var d' := d[..|d| - |w|];
      WeavesJoin(a, b, c, d', words);
      WeavesIn(a + c, b + d', w, words);
      assert b + d == (b + d') + w;
    }
  }

  lemma {:induction false} WeavesSelf(a: string, words: set<string>)
    ensures Weaves(a, a, words)
  {
    if a != [] {
      WeavesSelf(a[..|a| - 1], words);
    }
  }

  lemma WeavesWord(w: string, words: set<string>)
    requires w == [] || w in words
    ensures Weaves([], w, words)
  {
    if w != [] {
      assert w[|w| - |w|..] == w && w[..|w| - |w|] == [];
      WeavesSelf([], words);
    }
  }

  /** The headings of the sections. */
  function Titles(sections: seq<Section>): set<string> {
    set s | s in sections && s.heading.Some? :: Visible(s.heading.value)
  }

  /** What the chunks say, headings and bodies in order. */
  function Shown(drafts: seq<Draft>): string {
    Visible(Concat(Contents(drafts)))
  }

  lemma ShownJoin(a: seq<Draft>, b: seq<Draft>)
    ensures Shown(a + b) == Shown(a) + Shown(b)
  {
    hide Visible, Concat;
    assert Contents(a + b) == Contents(a) + Contents(b);
    VisibleJoin(Contents(a), Contents(b));
  }

  lemma ShownOne(draft: Draft)
    ensures Shown([draft]) == Visible(draft.content) && Shown([]) == []
  {
    hide Visible;
    NothingVisible();
    assert Contents([draft]) == [draft.content];
    ConcatOne(draft.content);
  }

  /** Dropping empty chunks drops nothing visible. */
  lemma {:induction false} KeptShows(drafts: seq<Draft>)
    ensures Shown(Kept(drafts)) == Shown(drafts)
    ensures forall d :: d in Kept(drafts) <==> d in drafts && d.content != []
  {
    hide Shown;
    if drafts != [] {
      var front, last := drafts[..|drafts| - 1], drafts[|drafts| - 1];
      KeptShows(front);
      assert drafts == front + [last];
      ShownJoin(front, [last]);
      ShownOne(last);
      ShownJoin(Kept(front), [last]);
      NothingVisible();
      assert Kept(front) + [] == Kept(front);
    }
  }

  lemma ContentVisible(prefix: string, piece: Piece)
    ensures Visible(Content(prefix, piece)) == (if piece.carries then Visible(prefix) else []) + Visible(piece.part)
  {
    hide Visible, Trim;
    NothingVisible();
    var s := (if piece.carries then prefix else "") + piece.part;
    var i, j := TrimSlice(s);
    VisibleConcat(if piece.carries then prefix else "", piece.part);
  }

  predicate Titled(heading: Option<string>, words: set<string>) {
    heading.Some? ==> Visible(heading.value) in words
  }

  /** Chunks show the parts they are made of, and headings. */
  lemma {:induction false} DraftsShow(heading: Option<string>, pieces: seq<Piece>, words: set<string>)
    requires Titled(heading, words)
    ensures Weaves(Said(pieces), Shown(Drafts(heading, pieces)), words)
  {
    hide Visible, Said, Shown, Weaves, Prefix, Titled;
    if pieces == [] {
      NothingSaid();
      assert Drafts(heading, pieces) == [];
      WeavesSelf([], words);
    } else {
      var front, last := pieces[..|pieces| - 1], pieces[|pieces| - 1];
      DraftsShow(heading, front, words);
      assert pieces == front + [last];
      SaidJoin(front, [last]);
      SaidOne(last);
      assert Drafts(heading, pieces) == Drafts(heading, front) + Drafts(heading, [last]);
      ShownJoin(Drafts(heading, front), Drafts(heading, [last]));
      DraftShows(heading, last, words);
      WeavesJoin(Said(front), Shown(Drafts(heading, front)), Visible(last.part), Shown(Drafts(heading, [last])), words);
    }
  }

  lemma NothingSaid()
    ensures Said([]) == [] && Shown([]) == []
  {
  }

  lemma PrefixVisible(heading: Option<string>)
    ensures Visible(Prefix(heading)) == Visible(Title(heading))
  {
    hide Visible;
    if heading.Some? {
      VisibleSpace(heading.value, '\n');
    }
  }

  lemma DraftShows(heading: Option<string>, piece: Piece, words: set<string>)
    requires Titled(heading, words)
    ensures Shown(Drafts(heading, [piece])) == (if piece.carries then Visible(Title(heading)) else []) + Visible(piece.part)
    ensures Weaves(Visible(piece.part), Shown(Drafts(heading, [piece])), words)
  {
    hide Visible, Shown, Weaves, Prefix;
    var draft := Draft(Content(Prefix(heading), piece), heading);
    assert Drafts(heading, [piece]) == [draft];
    ShownOne(draft);
    ContentVisible(Prefix(heading), piece);
    PrefixVisible(heading);
    NothingVisible();
    var lead := if piece.carries then Visible(Title(heading)) else [];
    WeavesWord(lead, words);
    WeavesSelf(Visible(piece.part), words);
    WeavesJoin([], lead, Visible(piece.part), Visible(piece.part), words);
    assert [] + Visible(piece.part) == Visible(piece.part);
  }

  /** And the heading itself, when the first of them carries it. */
  lemma LeadingDraftsShow(heading: Option<string>, pieces: seq<Piece>, words: set<string>)
    requires Leads(pieces) && Titled(heading, words)
    ensures Weaves(Visible(Title(heading)) + Said(pieces), Shown(Drafts(heading, pieces)), words)
  {
    hide Visible, Said, Shown, Weaves, Title, Titled;
    var first, rest := pieces[0], pieces[1..];
    assert pieces == [first] + rest;
    SaidJoin([first], rest);
    SaidOne(first);
    assert Drafts(heading, pieces) == Drafts(heading, [first]) + Drafts(heading, rest);
    ShownJoin(Drafts(heading, [first]), Drafts(heading, rest));
    DraftShows(heading, first, words);
    DraftsShow(heading, rest, words);
    var shown := Visible(Title(heading)) + Visible(first.part);
    WeavesSelf(shown, words);
    WeavesJoin(shown, shown, Said(rest), Shown(Drafts(heading, rest)), words);
    assert shown + Said(rest) == Visible(Title(heading)) + (Visible(first.part) + Said(rest));
  }

  lemma SectionShows(section: Section, max: nat, words: set<string>)
    requires section.heading.Some? ==> IsAtxHeading(section.heading.value)
    requires Titled(section.heading, words)
    ensures Weaves(Visible(Title(section.heading)) + Visible(section.body), Shown(Drafts(section.heading, SectionPieces(section, max))), words)
  {
    hide Visible, Said, Shown, Weaves, SectionPieces, Leads, IsAtxHeading, Titled;
    var pieces := SectionPieces(section, max);
    SectionSays(section, max);
    NothingVisible();
    if section.heading.Some? {
      HeadingCarried(section, max);
      LeadingDraftsShow(section.heading, pieces, words);
    } else {
      DraftsShow(section.heading, pieces, words);
      assert [] + Said(pieces) == Said(pieces);
    }
  }

  lemma {:induction false} SectionsShow(sections: seq<Section>, max: nat, words: set<string>)
    requires Headed(sections) && forall s :: s in sections ==> Titled(s.heading, words)
    ensures Weaves(Told(sections), Shown(AllDrafts(sections, max)), words)
    decreases |sections|
  {
    hide Visible, Shown, Weaves, SectionPieces, Drafts, IsAtxHeading, Title, Titled;
    if sections == [] {
      NothingSaid();
      WeavesSelf([], words);
    } else {
      var section, rest := sections[0], sections[1..];
      SectionShows(section, max, words);
      SectionsShow(rest, max, words);
      var drafts := Drafts(section.heading, SectionPieces(section, max));
      ShownJoin(drafts, AllDrafts(rest, max));
      WeavesJoin(Visible(Title(section.heading)) + Visible(section.body), Shown(drafts), Told(rest), Shown(AllDrafts(rest, max)), words);
    }
  }

  /** The chunks show every visible character of the document in order, and nothing besides but headings repeated whole. */
  lemma NothingLost(text: string, maxTokens: nat)
    ensures Weaves(Visible(text), Shown(Results(text, maxTokens)), Titles(Sections(text)))
  {
    hide Visible, Shown, Weaves, Sections, AllDrafts, Kept, Told, Blank;
    var sections := Sections(text);
    if Blank(text) {
      BlankIsInvisible(text);
      NothingSaid();
      WeavesSelf([], Titles(sections));
    } else {
      SectionsTell(text);
      SectionsShow(sections, maxTokens * 4, Titles(sections));
      KeptShows(AllDrafts(sections, maxTokens * 4));
    }
  }

  /** A chunk is within four times the tokens plus its heading line, or it is a single character; none is empty. */
  predicate DraftOk(draft: Draft, maxTokens: nat) {
    draft.content != [] && (ByteLen(draft.content) <= ByteLen(Prefix(draft.heading)) + maxTokens * 4 || |draft.content| == 1)
  }

  lemma {:induction false} DraftsBounded(sections: seq<Section>, maxTokens: nat, d: Draft)
    requires d in AllDrafts(sections, maxTokens * 4) && d.content != []
    ensures DraftOk(d, maxTokens)
    decreases |sections|
  {
    hide SectionPieces, ByteLen, Prefix, Trim;
    var max := maxTokens * 4;
    var section := sections[0];
    var pieces := SectionPieces(section, max);
    if d in Drafts(section.heading, pieces) {
      SectionBounded(section, max);
      var i :| 0 <= i < |pieces| && d == Draft(Content(Prefix(section.heading), pieces[i]), section.heading);
      assert Bounded(Prefix(section.heading), pieces[i], max);
      ByteLenBounds(d.content);
    } else {
      DraftsBounded(sections[1..], maxTokens, d);
    }
  }

  lemma ResultsBounded(text: string, maxTokens: nat, d: Draft)
    requires d in Results(text, maxTokens)
    ensures DraftOk(d, maxTokens)
  {
    hide AllDrafts, DraftOk, Sections, Blank;
    var drafts := AllDrafts(Sections(text), maxTokens * 4);
    KeptShows(drafts);
    DraftsBounded(Sections(text), maxTokens, d);
  }

  /** Chunks without their numbers. */
  function Unnumbered(chunks: seq<Chunk>): seq<Draft> {
    seq(|chunks|, i requires 0 <= i < |chunks| => Draft(chunks[i].content, chunks[i].heading))
  }

  method Emit(chunks: seq<Chunk>, prefix: string, piece: Piece, heading: Option<string>) returns (out: seq<Chunk>)
    requires prefix == Prefix(heading)
    ensures Unnumbered(out) == Unnumbered(chunks) + Drafts(heading, [piece])
  {
    hide Trim;
    out := chunks + [Chunk(|chunks|, Trim((if piece.carries then prefix else "") + piece.part), heading)];
  }

  lemma DraftsJoin(heading: Option<string>, a: seq<Piece>, b: seq<Piece>)
    ensures Drafts(heading, a + b) == Drafts(heading, a) + Drafts(heading, b)
  {
  }

  /** Appends the chunks of one section. */
  method ChunkSection(section: Section, maxChars: nat, chunks: seq<Chunk>) returns (out: seq<Chunk>)
    ensures Unnumbered(out) == Unnumbered(chunks) + Drafts(section.heading, SectionPieces(section, maxChars))
  {
    hide ByteLen, Blank, Drafts, Unnumbered, BlankLineParts, GatherParagraphs;
    var heading := section.heading;
    var prefix := Prefix(heading);
    if ByteLen(section.body) + ByteLen(prefix) <= maxChars {
      out := Emit(chunks, prefix, Piece(true, section.body), heading);
      return;
    }
    out := ChunkParagraphs(section, maxChars, chunks);
  }

  method ChunkParagraphs(section: Section, maxChars: nat, chunks: seq<Chunk>) returns (out: seq<Chunk>)
    ensures Unnumbered(out)
         == Unnumbered(chunks) + Drafts(section.heading, GatherParagraphs(BlankLineParts(section.body), Prefix(section.heading), "", maxChars))
  {
    hide ByteLen, Blank, Drafts, Unnumbered, BlankLineParts, GatherParagraphs, Met, Prefix;
    var heading, prefix := section.heading, Prefix(section.heading);
    var paragraphs := SplitOnBlankLines(section.body);
    out := chunks;
    var part := "";
    assert paragraphs[0..] == paragraphs;
    ghost var all := Unnumbered(chunks) + Drafts(heading, GatherParagraphs(paragraphs, prefix, "", maxChars));
    for i := 0 to |paragraphs|
      invariant Unnumbered(out) + Drafts(heading, GatherParagraphs(paragraphs[i..], prefix, part, maxChars)) == all
    {
      ParagraphNext(Unnumbered(out), heading, paragraphs, i, prefix, part, maxChars);
      out, part := ChunkParagraph(paragraphs[i], prefix, part, maxChars, heading, out);
    }
    NoParagraphsLeft(paragraphs[|paragraphs|..], prefix, part, maxChars);
    NoDrafts(heading, out);
    if !Blank(prefix + part) {
      out := Emit(out, prefix, Piece(true, part), heading);
    }
  }

  lemma NoDrafts(heading: Option<string>, chunks: seq<Chunk>)
    ensures Drafts(heading, []) == [] && Unnumbered(chunks) + [] == Unnumbered(chunks)
  {
  }

  lemma NoParagraphsLeft(paras: seq<string>, prefix: string, part: string, max: nat)
    requires paras == []
    ensures GatherParagraphs(paras, prefix, part, max) == Flush(prefix, part)
  {
  }

  lemma ParagraphNext(out: seq<Draft>, heading: Option<string>, paras: seq<string>, i: nat, prefix: string, part: string, max: nat)
    requires i < |paras|
    ensures var (emitted, next) := Met(paras[i], prefix, part, max);
            (out + Drafts(heading, GatherParagraphs(paras[i..], prefix, part, max))
          == out + Drafts(heading, emitted) + Drafts(heading, GatherParagraphs(paras[i + 1..], prefix, next, max)))
  {
    hide Met, Flush, Drafts;
    assert paras[i..][1..] == paras[i + 1..];
    var (emitted, next) := Met(paras[i], prefix, part, max);
    DraftsJoin(heading, emitted, GatherParagraphs(paras[i + 1..], prefix, next, max));
  }

  /** One turn of the paragraph loop; `part` is what the buffer holds behind the heading. */
  method ChunkParagraph(para: string, prefix: string, part: string, maxChars: nat, heading: Option<string>, chunks: seq<Chunk>)
    returns (out: seq<Chunk>, next: string)
    requires prefix == Prefix(heading)
    ensures var (emitted, rest) := Met(para, prefix, part, maxChars);
            Unnumbered(out) == Unnumbered(chunks) + Drafts(heading, emitted) && next == rest
  {
    hide ByteLen, Blank, Drafts, Unnumbered, LinePieces, Bare, Prefix;
    out, next := chunks, part;
    ghost var pieces: seq<Piece> := [];
    NoDrafts(heading, chunks);
    if ByteLen(prefix + next) + ByteLen(para) > maxChars && !Blank(prefix + next) {
      out := Emit(out, prefix, Piece(true, next), heading);
      pieces := [Piece(true, next)];
      next := "";
    }
    if ByteLen(para) > maxChars {
      ghost var first := pieces;
      if !Blank(prefix + next) {
        out := Emit(out, prefix, Piece(true, next), heading);
        DraftsJoin(heading, pieces, [Piece(true, next)]);
        pieces := pieces + [Piece(true, next)];
        next := "";
      } else {
        assert pieces + [] == pieces;
      }
      var parts := SplitOnLines(para, maxChars);
      DraftsJoin(heading, pieces, Bare(parts));
      out := EmitAll(out, prefix, parts, heading);
    } else {
      next := next + para + "\n";
    }
  }

  method EmitAll(chunks: seq<Chunk>, prefix: string, parts: seq<string>, heading: Option<string>) returns (out: seq<Chunk>)
    requires prefix == Prefix(heading)
    ensures Unnumbered(out) == Unnumbered(chunks) + Drafts(heading, Bare(parts))
  {
    hide Drafts, Unnumbered, Prefix;
    out := chunks;
    NoDrafts(heading, chunks);
    assert Bare(parts)[..0] == [];
    for i := 0 to |parts|
      invariant Unnumbered(out) == Unnumbered(chunks) + Drafts(heading, Bare(parts)[..i])
    {
      out := Emit(out, prefix, Piece(false, parts[i]), heading);
      DraftsJoin(heading, Bare(parts)[..i], [Piece(false, parts[i])]);
      assert Bare(parts)[..i + 1] == Bare(parts)[..i] + [Piece(false, parts[i])];
    }
    assert Bare(parts)[..|parts|] == Bare(parts);
  }

  /** Cuts a document into chunks numbered from zero. */
  method ChunkMarkdown(text: string, maxTokens: nat) returns (chunks: seq<Chunk>)
    ensures Unnumbered(chunks) == Results(text, maxTokens)
    ensures forall i :: 0 <= i < |chunks| ==> chunks[i].index == i
  {
    hide Blank, SectionPieces, Drafts, Sections;
    if Blank(text) {
      return [];
    }
    var maxChars := maxTokens * 4;
    var sections := SplitOnHeadings(text);
    var all: seq<Chunk> := [];
    assert sections[0..] == sections;
    for i := 0 to |sections|
      invariant Unnumbered(all) + AllDrafts(sections[i..], maxChars) == AllDrafts(sections, maxChars)
    {
      hide Unnumbered;
      assert sections[i..][1..] == sections[i + 1..];
      all := ChunkSection(sections[i], maxChars, all);
    }
    assert Unnumbered(all) + AllDrafts([], maxChars) == Unnumbered(all);
    chunks := Retain(all);
    chunks := Renumber(chunks);
  }

  method Retain(all: seq<Chunk>) returns (chunks: seq<Chunk>)
    ensures Unnumbered(chunks) == Kept(Unnumbered(all))
  {
    chunks := [];
    for i := 0 to |all|
      invariant Unnumbered(chunks) == Kept(Unnumbered(all)[..i])
    {
      assert Unnumbered(all)[..i + 1][..i] == Unnumbered(all)[..i];
      if all[i].content != [] {
        chunks := chunks + [all[i]];
      }
    }
    assert Unnumbered(all)[..|all|] == Unnumbered(all);
  }

  method Renumber(all: seq<Chunk>) returns (chunks: seq<Chunk>)
    ensures Unnumbered(chunks) == Unnumbered(all)
    ensures forall i :: 0 <= i < |chunks| ==> chunks[i].index == i
  {
    chunks := all;
    for i := 0 to |all|
      invariant |chunks| == |all| && Unnumbered(chunks) == Unnumbered(all)
      invariant forall j :: 0 <= j < i ==> chunks[j].index == j
    {
      chunks := chunks[i := chunks[i].(index := i)];
    }
  }
}
