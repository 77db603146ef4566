/**
 * What the semantic splitter keeps together, said over the lines of the document: which lines make
 * a section, which a paragraph, and which paragraphs and lines share a chunk.
 */
module SemanticLayout {
  import opened Options
  import opened SemanticChunks
  import opened SemanticLines
  import opened TextScan
  import opened Unicode

  /** Lines, each with its line feed. */
  function Block(lines: seq<string>): string {
    if lines == [] then "" else Block(lines[..|lines| - 1]) + lines[|lines| - 1] + "\n"
  }

  lemma BlockGrows(all: seq<string>, a: nat, n: nat)
    requires a <= n < |all|
    ensures Block(all[a..n + 1]) == Block(all[a..n]) + all[n] + "\n"
  {
    assert all[a..n + 1][..n - a] == all[a..n];
  }

  lemma NoBlock(all: seq<string>, n: nat)
    requires n <= |all|
    ensures all[n..n] == [] && Block(all[n..n]) == ""
  {
  }

  /** A block is blank exactly when each of its lines is. */
  lemma {:induction false} BlankBlock(lines: seq<string>)
    ensures Blank(Block(lines)) <==> forall i :: 0 <= i < |lines| ==> Blank(lines[i])
  {
    hide Blank, Visible;
    NothingVisible();
    BlankIsInvisible(Block(lines));
    if lines != [] {
      var front, last := lines[..|lines| - 1], lines[|lines| - 1];
      BlankBlock(front);
      BlankIsInvisible(Block(front));
      BlankIsInvisible(last);
      LineAdded(Block(front), last);
      assert (forall i :: 0 <= i < |lines| ==> Blank(lines[i])) <==> (forall i :: 0 <= i < |front| ==> Blank(front[i])) && Blank(last) by {
        assert forall i :: 0 <= i < |front| ==> front[i] == lines[i];
      }
    }
  }

  // ---------- headings ----------

  /** One to six number signs, then a space. */
  lemma AtxMeaning(line: string)
    ensures IsAtxHeading(line)
            <==> exists n: nat :: 1 <= n <= 6 && n < |line| && line[n] == ' ' && forall i :: 0 <= i < n ==> line[i] == '#'
  {
    var n: nat := 0;
    while n < |line| && n < 7 && line[n] == '#'
      invariant n <= |line| && n <= 7 && forall i :: 0 <= i < n ==> line[i] == '#'
    {
      n := n + 1;
    }
    if IsAtxHeading(line) {
      AtxPrefix(line);
    }
    assert forall m: nat :: m < |line| && line[m] == ' ' && (forall i :: 0 <= i < m ==> line[i] == '#') ==> m == n || m >= 7;
    if 1 <= n <= 6 && n < |line| && line[n] == ' ' {
      PrefixAtx(line, n);
    }
  }

  lemma AtxPrefix(line: string)
    requires IsAtxHeading(line)
    ensures exists n: nat :: 1 <= n <= 6 && n < |line| && line[n] == ' ' && forall i :: 0 <= i < n ==> line[i] == '#'
  {
    if "# " <= line {
      SameStart("# ", line);
      assert line[1] == ' ';
    } else if "## " <= line {
      SameStart("## ", line);
      assert line[2] == ' ';
    } else if "### " <= line {
      SameStart("### ", line);
      assert line[3] == ' ';
    } else if "#### " <= line {
      SameStart("#### ", line);
      assert line[4] == ' ';
    } else if "##### " <= line {
      SameStart("##### ", line);
      assert line[5] == ' ';
    } else {
      SameStart("###### ", line);
      assert line[6] == ' ';
    }
  }

  lemma SameStart(prefix: string, line: string)
    requires prefix <= line
    ensures forall i :: 0 <= i < |prefix| ==> line[i] == prefix[i]
  {
  }

  lemma PrefixAtx(line: string, n: nat)
    requires 1 <= n <= 6 && n < |line| && line[n] == ' ' && forall i :: 0 <= i < n ==> line[i] == '#'
    ensures IsAtxHeading(line)
  {
    var prefix := line[..n + 1];
    assert prefix <= line;
    if n == 1 {
      assert prefix == "# ";
    } else if n == 2 {
      assert prefix == "## ";
    } else if n == 3 {
      assert prefix == "### ";
    } else if n == 4 {
      assert prefix == "#### ";
    } else if n == 5 {
      assert prefix == "##### ";
    } else {
      assert prefix == "###### ";
    }
  }

  /** The first heading line at or after a position; the number of lines when there is none. */
  function NextHeading(all: seq<string>, from: nat): (h: nat)
    requires from <= |all|
    ensures from <= h <= |all| && (h < |all| ==> IsAtxHeading(all[h]))
    ensures forall k :: from <= k < h ==> !IsAtxHeading(all[k])
    decreases |all| - from
  {
    if from == |all| || IsAtxHeading(all[from]) then from else NextHeading(all, from + 1)
  }

  /** The lines before the first heading. */
  function Before(all: seq<string>): string {
    Block(all[..NextHeading(all, 0)])
  }

  /** Blank lines before the first heading go to its section. */
  function Lead(all: seq<string>, h: nat): string {
    if h == NextHeading(all, 0) && Blank(Before(all)) then Before(all) else ""
  }

  /** The section of the heading at a position: the lines up to the next heading. */
  function SectionAt(all: seq<string>, h: nat): Section
    requires h < |all|
  {
    Section(Some(all[h]), Lead(all, h) + Block(all[h + 1..NextHeading(all, h + 1)]))
  }

  function SectionsAt(all: seq<string>, marks: seq<nat>): seq<Section>
    requires forall k :: 0 <= k < |marks| ==> marks[k] < |all|
  {
    seq(|marks|, k requires 0 <= k < |marks| => SectionAt(all, marks[k]))
  }

  /** The positions of the heading lines from a position on, in order. */
  ghost predicate HeadingMarks(all: seq<string>, marks: seq<nat>, from: nat) {
    && (forall k :: 0 <= k < |marks| ==> from <= marks[k] < |all| && IsAtxHeading(all[marks[k]]))
    && (forall k :: 0 <= k < |marks| - 1 ==> marks[k] < marks[k + 1])
    && (forall h: nat :: from <= h < |all| && IsAtxHeading(all[h]) ==> h in marks)
  }

  lemma NextHeadingIs(all: seq<string>, from: nat, h: nat)
    requires from <= h <= |all| && (h < |all| ==> IsAtxHeading(all[h])) && forall k :: from <= k < h ==> !IsAtxHeading(all[k])
    ensures NextHeading(all, from) == h
  {
    hide IsAtxHeading;
    var next := NextHeading(all, from);
    if next < h {
      assert false;
    } else if h < next {
      assert false;
    }
  }

  lemma SectionsStep(all: seq<string>, n: nat, heading: Option<string>, body: string)
    requires n <= |all|
    ensures SectionsFrom(all[n..], heading, body)
         == if n == |all| then Closed(heading, body)
            else if IsAtxHeading(all[n]) then Closed(heading, body) + SectionsFrom(all[n + 1..], Some(all[n]), AfterClosing(heading, body))
            else SectionsFrom(all[n + 1..], heading, body + all[n] + "\n")
  {
    hide IsAtxHeading, Closed, AfterClosing;
    if n < |all| {
      assert all[n..][1..] == all[n + 1..];
    }
  }

  lemma HeadedCloses(heading: string, body: string)
    ensures Closed(Some(heading), body) == [Section(Some(heading), body)] && AfterClosing(Some(heading), body) == ""
  {
  }

  /** The section under a heading while its lines are read. */
  lemma {:induction false} SectionsAfter(all: seq<string>, h: nat, n: nat) returns (marks: seq<nat>)
    requires h < n <= |all| && IsAtxHeading(all[h]) && forall k :: h < k < n ==> !IsAtxHeading(all[k])
    ensures HeadingMarks(all, marks, n)
    ensures SectionsFrom(all[n..], Some(all[h]), Lead(all, h) + Block(all[h + 1..n])) == [SectionAt(all, h)] + SectionsAt(all, marks)
    decreases |all| - n, 1
  {
    hide IsAtxHeading, Blank, Lead, Block, SectionsFrom, Closed, AfterClosing;
    var body := Lead(all, h) + Block(all[h + 1..n]);
    SectionsStep(all, n, Some(all[h]), body);
    HeadedCloses(all[h], body);
    if n == |all| {
      marks := [];
      NextHeadingIs(all, h + 1, n);
    } else if IsAtxHeading(all[n]) {
      NextHeadingIs(all, h + 1, n);
      marks := SectionsFromHeading(all, n);
      LaterLead(all, h, n);
    } else {
      BlockGrows(all, h + 1, n);
      assert body + all[n] + "\n" == Lead(all, h) + Block(all[h + 1..n + 1]);
      marks := SectionsAfter(all, h, n + 1);
    }
  }

  /** The sections from a heading on. */
  lemma {:induction false} SectionsFromHeading(all: seq<string>, n: nat) returns (marks: seq<nat>)
    requires n < |all| && IsAtxHeading(all[n])
    ensures HeadingMarks(all, marks, n)
    ensures SectionsFrom(all[n + 1..], Some(all[n]), Lead(all, n)) == SectionsAt(all, marks)
    decreases |all| - n, 0
  {
    hide IsAtxHeading, Blank, Lead, Block, SectionsFrom;
    NoBlock(all, n + 1);
    assert Lead(all, n) + "" == Lead(all, n);
    var later := SectionsAfter(all, n, n + 1);
    marks := [n] + later;
    MarksCons(all, n, later);
  }

  lemma LaterLead(all: seq<string>, h: nat, n: nat)
    requires h < n < |all| && IsAtxHeading(all[n]) && IsAtxHeading(all[h])
    ensures Lead(all, n) == ""
  {
    hide IsAtxHeading, Blank;
  }

  lemma MarksCons(all: seq<string>, n: nat, later: seq<nat>)
    requires n < |all| && IsAtxHeading(all[n]) && HeadingMarks(all, later, n + 1)
    ensures HeadingMarks(all, [n] + later, n)
    ensures SectionsAt(all, [n] + later) == [SectionAt(all, n)] + SectionsAt(all, later)
  {
    hide IsAtxHeading, SectionAt;
    var marks := [n] + later;
    forall h: nat | n <= h < |all| && IsAtxHeading(all[h]) ensures h in marks {
      if h == n {
        assert marks[0] == n;
      }
    }
  }

  /** The lines before the first heading while they are read. */
  lemma {:induction false} SectionsBefore(all: seq<string>, n: nat) returns (marks: seq<nat>)
    requires n <= |all| && forall k :: 0 <= k < n ==> !IsAtxHeading(all[k])
    ensures HeadingMarks(all, marks, 0)
    ensures SectionsFrom(all[n..], None, Block(all[..n]))
         == (if Blank(Before(all)) then [] else [Section(None, Before(all))]) + SectionsAt(all, marks)
    decreases |all| - n
  {
    hide IsAtxHeading, Blank, Block;
    if n == |all| {
      marks := [];
      NextHeadingIs(all, 0, n);
    } else {
      assert all[n..][1..] == all[n + 1..];
      if IsAtxHeading(all[n]) {
        NextHeadingIs(all, 0, n);
        assert AfterClosing(None, Before(all)) == Lead(all, n);
        marks := SectionsFromHeading(all, n);
        EarlierMarks(all, marks, n);
      } else {
        BlockGrows(all, 0, n);
        assert all[0..n] == all[..n] && all[0..n + 1] == all[..n + 1];
        marks := SectionsBefore(all, n + 1);
      }
    }
  }

  lemma EarlierMarks(all: seq<string>, marks: seq<nat>, n: nat)
    requires HeadingMarks(all, marks, n) && n <= |all| && forall k :: 0 <= k < n ==> !IsAtxHeading(all[k])
    ensures HeadingMarks(all, marks, 0)
  {
    hide IsAtxHeading;
  }

  /**
   * Every heading line starts a section, which goes up to the next heading line.  What comes before
   * the first is a section without heading, or goes to the first section when it is blank.
   */
  lemma SectionsMeaning(text: string) returns (marks: seq<nat>)
    ensures var all := Lines(text);
            && HeadingMarks(all, marks, 0)
            && Sections(text) == (if Blank(Before(all)) then [] else [Section(None, Before(all))]) + SectionsAt(all, marks)
  {
    hide IsAtxHeading, Blank, SectionsFrom;
    var all := Lines(text);
    assert all[0..] == all;
    NoBlock(all, 0);
    assert all[..0] == all[0..0];
    marks := SectionsBefore(all, 0);
  }

  // ---------- paragraphs ----------

  /** A run of lines that are not blank, as long as it goes. */
  predicate RunAt(lines: seq<string>, i: nat, j: nat) {
    && i < j <= |lines| && (forall k :: i <= k < j ==> !Blank(lines[k]))
    && (i == 0 || Blank(lines[i - 1])) && (j == |lines| || Blank(lines[j]))
  }

  /** The runs from a position on, in order, and the texts that are their blocks. */
  ghost predicate Runs(lines: seq<string>, parts: seq<string>, spans: seq<(nat, nat)>, from: nat) {
    && |spans| == |parts|
    && (forall k :: 0 <= k < |spans| ==>
          from <= spans[k].0 && RunAt(lines, spans[k].0, spans[k].1) && parts[k] == Block(lines[spans[k].0..spans[k].1]))
    && (forall k :: 0 < k < |spans| ==> spans[k - 1].1 < spans[k].0)
    && (forall i: nat, j: nat :: from <= i && RunAt(lines, i, j) ==> (i, j) in spans)
  }

  /** A run that is being read. */
  predicate OpenRun(lines: seq<string>, a: nat, n: nat) {
    a <= n <= |lines| && (forall k :: a <= k < n ==> !Blank(lines[k])) && (a == 0 || Blank(lines[a - 1]))
  }

  lemma OnlyRun(lines: seq<string>, a: nat, n: nat)
    requires OpenRun(lines, a, n) && a < n && (n == |lines| || Blank(lines[n]))
    ensures RunAt(lines, a, n)
    ensures forall i: nat, j: nat :: a <= i <= n && RunAt(lines, i, j) ==> i == a && j == n
  {
    hide Blank;
  }

  lemma RunsCons(lines: seq<string>, a: nat, n: nat, parts: seq<string>, spans: seq<(nat, nat)>)
    requires OpenRun(lines, a, n) && a < n < |lines| && Blank(lines[n]) && Runs(lines, parts, spans, n + 1)
    ensures Runs(lines, [Block(lines[a..n])] + parts, [(a, n)] + spans, a)
  {
    hide Blank, Block, RunAt;
    OnlyRun(lines, a, n);
    var all := [(a, n)] + spans;
    forall i: nat, j: nat | a <= i && RunAt(lines, i, j) ensures (i, j) in all {
      if i <= n {
        assert all[0] == (i, j);
      }
    }
  }

  lemma SkipBlank(lines: seq<string>, n: nat, parts: seq<string>, spans: seq<(nat, nat)>)
    requires n < |lines| && Blank(lines[n]) && Runs(lines, parts, spans, n + 1)
    ensures Runs(lines, parts, spans, n)
  {
    hide Blank, Block;
    forall i: nat, j: nat | n <= i && RunAt(lines, i, j) ensures (i, j) in spans {
      assert i != n;
    }
  }

  lemma OpenBlock(lines: seq<string>, a: nat, n: nat)
    requires OpenRun(lines, a, n)
    ensures Blank(Block(lines[a..n])) <==> a == n
  {
    hide Blank, Block;
    BlankBlock(lines[a..n]);
    if a < n {
      assert lines[a..n][0] == lines[a];
    }
  }

  lemma {:induction false} ParagraphRuns(lines: seq<string>, a: nat, n: nat) returns (spans: seq<(nat, nat)>)
    requires OpenRun(lines, a, n)
    ensures Runs(lines, ParagraphsFrom(lines[n..], Block(lines[a..n])), spans, a)
    decreases |lines| - n
  {
    hide Blank, Block, RunAt;
    OpenBlock(lines, a, n);
    if n == |lines| {
      NoRunsAfter(lines);
      if a < n {
        OnlyRun(lines, a, n);
        spans := [(a, n)];
        forall i: nat, j: nat | a <= i && RunAt(lines, i, j) ensures (i, j) in spans {
          assert spans[0] == (a, n);
        }
      } else {
        spans := [];
      }
    } else {
      assert lines[n..][1..] == lines[n + 1..];
      if !Blank(lines[n]) {
        BlockGrows(lines, a, n);
        spans := ParagraphRuns(lines, a, n + 1);
      } else {
        NoBlock(lines, n + 1);
        NoBlock(lines, n);
        spans := ParagraphRuns(lines, n + 1, n + 1);
        if a < n {
          RunsCons(lines, a, n, ParagraphsFrom(lines[n + 1..], ""), spans);
          spans := [(a, n)] + spans;
        } else {
          SkipBlank(lines, n, ParagraphsFrom(lines[n + 1..], ""), spans);
        }
      }
    }
  }

  lemma NoRunsAfter(lines: seq<string>)
    ensures forall i: nat, j: nat :: RunAt(lines, i, j) ==> i < j <= |lines|
  {
    hide Blank;
  }

  /** The paragraphs of a text are exactly its runs of lines that are not blank. */
  lemma ParagraphsMeaning(text: string) returns (spans: seq<(nat, nat)>)
    ensures Runs(Lines(text), BlankLineParts(text), spans, 0)
  {
    hide Blank, Block;
    var lines := Lines(text);
    NoBlock(lines, 0);
    assert lines[0..] == lines;
    spans := ParagraphRuns(lines, 0, 0);
  }

  // ---------- gathering ----------

  /** Items from `a` up to `b` that share a piece, or one that is too large for any. */
  datatype Group = Together(a: nat, b: nat) | Oversize(at: nat)

  /** What is kept to when items are gathered behind a prefix into pieces of bounded size; `slack` counts in on adding one. */
  datatype Limits = Limits(prefix: string, slack: nat, max: nat)

  /** The next item does not fit behind the gathered ones. */
  predicate Overflows(items: seq<string>, l: Limits, a: nat, b: nat) {
    a <= b < |items| && ByteLen(l.prefix + Block(items[a..b])) + ByteLen(items[b]) + l.slack > l.max
  }

  /**
   * Items gathered together: none is too large by itself, and each but the first fits behind the
   * ones before it.  The first need not fit behind the prefix when another piece has just ended.
   */
  ghost predicate Fitting(items: seq<string>, l: Limits, a: nat, b: nat, anew: bool) {
    && a <= b <= |items|
    && (forall k :: a <= k < b ==> ByteLen(items[k]) <= l.max)
    && (forall k :: a < k < b ==> !Overflows(items, l, a, k))
    && (if anew then a < b && !Blank(l.prefix) ==> !Overflows(items, l, a, a) else a < b)
  }

  /**
   * Groups over the items from `a` on, without gap: a piece ends only because the next item does
   * not fit, is too large by itself, or there is none.  `anew` says that nothing was gathered
   * since the start or since an item that is too large; a prefix that shows is then never left out.
   */
  ghost predicate Laid(items: seq<string>, l: Limits, groups: seq<Group>, a: nat, anew: bool) {
    if groups == [] then a == |items| && (anew ==> Blank(l.prefix))
    else
      match groups[0]
      case Together(from, b) =>
        && from == a && Fitting(items, l, a, b, anew) && (a == b ==> !Blank(l.prefix))
        && (|groups| > 1 && groups[1].Together? ==> Overflows(items, l, a, b))
        && Laid(items, l, groups[1..], b, false)
      case Oversize(at) =>
        && at == a < |items| && ByteLen(items[at]) > l.max && (anew ==> Blank(l.prefix))
        && Laid(items, l, groups[1..], a + 1, true)
  }

  lemma LaidEnd(items: seq<string>, l: Limits, a: nat, anew: bool)
    requires a <= |items| && Fitting(items, l, a, |items|, anew) && (a == |items| ==> !Blank(l.prefix))
    ensures Laid(items, l, [Together(a, |items|)], a, anew)
  {
    hide Fitting, Blank;
    assert [Together(a, |items|)][1..] == [];
  }

  lemma LaidFull(items: seq<string>, l: Limits, a: nat, n: nat, anew: bool, rest: seq<Group>)
    requires Fitting(items, l, a, n, anew) && (a == n ==> !Blank(l.prefix)) && Laid(items, l, rest, n, false)
    requires Overflows(items, l, a, n) || (rest != [] && rest[0].Oversize?)
    ensures Laid(items, l, [Together(a, n)] + rest, a, anew)
  {
    hide Fitting, Overflows, Blank;
    assert ([Together(a, n)] + rest)[1..] == rest;
  }

  lemma LaidOversize(items: seq<string>, l: Limits, n: nat, anew: bool, rest: seq<Group>)
    requires n < |items| && ByteLen(items[n]) > l.max && (anew ==> Blank(l.prefix)) && Laid(items, l, rest, n + 1, true)
    ensures Laid(items, l, [Oversize(n)] + rest, n, anew)
  {
    hide Blank, ByteLen;
    assert ([Oversize(n)] + rest)[1..] == rest;
  }

  lemma NothingYet(items: seq<string>, l: Limits, n: nat)
    requires n <= |items|
    ensures Fitting(items, l, n, n, true)
  {
  }

  lemma OneMore(items: seq<string>, l: Limits, a: nat, n: nat, anew: bool)
    requires Fitting(items, l, a, n, anew) && n < |items| && ByteLen(items[n]) <= l.max
    requires !Overflows(items, l, a, n) || (a == n && Blank(l.prefix))
    ensures Fitting(items, l, a, n + 1, anew)
  {
    hide ByteLen, Blank, Overflows;
  }

  lemma FirstAfter(items: seq<string>, l: Limits, n: nat)
    requires n < |items| && ByteLen(items[n]) <= l.max
    ensures Fitting(items, l, n, n + 1, false)
  {
    hide ByteLen;
  }

  // ---------- lines that share a piece ----------

  function LineGroup(lines: seq<string>, max: nat, g: Group): seq<string>
    requires InItems(lines, g)
  {
    match g
    case Together(a, b) => [Block(lines[a..b])]
    case Oversize(at) => WordPieces(lines[at], max)
  }

  ghost predicate Inside(items: seq<string>, groups: seq<Group>) {
    forall g :: g in groups ==> InItems(items, g)
  }

  predicate InItems(items: seq<string>, g: Group) {
    if g.Together? then g.a <= g.b <= |items| else g.at < |items|
  }

  lemma {:induction false} LaidInside(items: seq<string>, l: Limits, groups: seq<Group>, a: nat, anew: bool)
    requires Laid(items, l, groups, a, anew)
    ensures Inside(items, groups)
    decreases |groups|
  {
    hide Overflows, Blank, ByteLen;
    if groups != [] {
      var b := if groups[0].Together? then groups[0].b else a + 1;
      LaidInside(items, l, groups[1..], b, groups[0].Oversize?);
    }
  }

  function LineGroups(lines: seq<string>, max: nat, groups: seq<Group>): seq<string>
    requires Inside(lines, groups)
  {
    if groups == [] then [] else LineGroup(lines, max, groups[0]) + LineGroups(lines, max, groups[1..])
  }

  lemma LineGroupsCons(lines: seq<string>, max: nat, g: Group, rest: seq<Group>)
    requires InItems(lines, g) && Inside(lines, rest)
    ensures Inside(lines, [g] + rest) && LineGroups(lines, max, [g] + rest) == LineGroup(lines, max, g) + LineGroups(lines, max, rest)
  {
    hide LineGroup;
    assert ([g] + rest)[1..] == rest;
  }

  lemma SomeBlock(lines: seq<string>, a: nat, n: nat)
    requires a <= n <= |lines|
    ensures Block(lines[a..n]) == [] <==> a == n
    ensures "" + Block(lines[a..n]) == Block(lines[a..n])
  {
  }

  lemma GatherStep(lines: seq<string>, n: nat, max: nat, current: string)
    requires n <= |lines|
    ensures n == |lines| ==> GatherLines(lines[n..], max, current) == Flushed(current)
    ensures n < |lines| ==>
              var (emitted, next) := Gathered(lines[n], max, current);
              GatherLines(lines[n..], max, current) == emitted + GatherLines(lines[n + 1..], max, next)
  {
    hide Gathered, Flushed;
    if n < |lines| {
      assert lines[n..][1..] == lines[n + 1..];
    }
  }

  function LineLimits(max: nat): Limits {
    Limits("", 1, max)
  }

  lemma NoPrefix(max: nat)
    ensures Blank(LineLimits(max).prefix)
  {
  }

  lemma {:induction false} LinesLaid(lines: seq<string>, max: nat, a: nat, n: nat, anew: bool) returns (groups: seq<Group>)
    requires Fitting(lines, LineLimits(max), a, n, anew)
    ensures Laid(lines, LineLimits(max), groups, a, anew) && Inside(lines, groups)
    ensures GatherLines(lines[n..], max, Block(lines[a..n])) == LineGroups(lines, max, groups)
    decreases |lines| - n
  {
    hide Blank, ByteLen, Block, WordPieces, Laid, Fitting, Inside, LineGroups, GatherLines, Flushed, LineLimits;
    FittingRange(lines, LineLimits(max), a, n, anew);
    var current := Block(lines[a..n]);
    GatherStep(lines, n, max, current);
    if n == |lines| {
      groups := LinesLaidEnd(lines, max, a, anew);
      assert lines[a..] == lines[a..n];
    } else if ByteLen(lines[n]) > max {
      NoBlock(lines, n + 1);
      NothingYet(lines, LineLimits(max), n + 1);
      var later := LinesLaid(lines, max, n + 1, n + 1, true);
      groups := LinesAroundLong(lines, max, a, n, anew, later);
    } else if ByteLen(current) + ByteLen(lines[n]) + 1 > max && current != [] {
      LineAlone(lines, max, n);
      var later := LinesLaid(lines, max, n, n + 1, false);
      groups := LinesFull(lines, max, a, n, anew, later);
    } else {
      BlockGrows(lines, a, n);
      LineFits(lines, max, a, n, anew);
      groups := LinesLaid(lines, max, a, n + 1, anew);
      assert [] + LineGroups(lines, max, groups) == LineGroups(lines, max, groups);
    }
  }

  lemma LineAlone(lines: seq<string>, max: nat, n: nat)
    requires n < |lines| && ByteLen(lines[n]) <= max
    ensures Fitting(lines, LineLimits(max), n, n + 1, false) && Block(lines[n..n + 1]) == lines[n] + "\n"
  {
    hide Fitting, ByteLen, Block;
    FirstAfter(lines, LineLimits(max), n);
    NoBlock(lines, n);
    BlockGrows(lines, n, n);
    assert "" + lines[n] + "\n" == lines[n] + "\n";
  }

  lemma LineFits(lines: seq<string>, max: nat, a: nat, n: nat, anew: bool)
    requires Fitting(lines, LineLimits(max), a, n, anew) && n < |lines| && ByteLen(lines[n]) <= max
    requires ByteLen(Block(lines[a..n])) + ByteLen(lines[n]) + 1 <= max || Block(lines[a..n]) == []
    ensures Fitting(lines, LineLimits(max), a, n + 1, anew)
  {
    hide Fitting, ByteLen, Block, Blank;
    NoPrefix(max);
    FittingRange(lines, LineLimits(max), a, n, anew);
    SomeBlock(lines, a, n);
    OneMore(lines, LineLimits(max), a, n, anew);
  }

  lemma LinesFull(lines: seq<string>, max: nat, a: nat, n: nat, anew: bool, later: seq<Group>) returns (groups: seq<Group>)
    requires Fitting(lines, LineLimits(max), a, n, anew) && n < |lines| && Block(lines[a..n]) != []
    requires ByteLen(Block(lines[a..n])) + ByteLen(lines[n]) + 1 > max
    requires Laid(lines, LineLimits(max), later, n, false) && Inside(lines, later)
    ensures Laid(lines, LineLimits(max), groups, a, anew) && Inside(lines, groups)
    ensures LineGroups(lines, max, groups) == [Block(lines[a..n])] + LineGroups(lines, max, later)
  {
    hide Fitting, ByteLen, Block, Blank, Laid, Inside, LineGroups;
    FittingRange(lines, LineLimits(max), a, n, anew);
    SomeBlock(lines, a, n);
    LaidFull(lines, LineLimits(max), a, n, anew, later);
    LineGroupsCons(lines, max, Together(a, n), later);
    groups := [Together(a, n)] + later;
  }

  lemma LinesAroundLong(lines: seq<string>, max: nat, a: nat, n: nat, anew: bool, later: seq<Group>) returns (groups: seq<Group>)
    requires Fitting(lines, LineLimits(max), a, n, anew) && n < |lines| && ByteLen(lines[n]) > max
    requires Laid(lines, LineLimits(max), later, n + 1, true) && Inside(lines, later)
    ensures Laid(lines, LineLimits(max), groups, a, anew) && Inside(lines, groups)
    ensures LineGroups(lines, max, groups) == Flushed(Block(lines[a..n])) + WordPieces(lines[n], max) + LineGroups(lines, max, later)
  {
    hide Fitting, ByteLen, Block, Blank, Laid, Inside, LineGroups, WordPieces;
    NoPrefix(max);
    FittingRange(lines, LineLimits(max), a, n, anew);
    SomeBlock(lines, a, n);
    NotOpenedMeansSome(lines, LineLimits(max), a, n, anew);
    var from := a == n && anew;
    LaidOversize(lines, LineLimits(max), n, from, later);
    LineGroupsCons(lines, max, Oversize(n), later);
    groups := [Oversize(n)] + later;
    var long := WordPieces(lines[n], max) + LineGroups(lines, max, later);
    if a < n {
      LaidFull(lines, LineLimits(max), a, n, anew, groups);
      LineGroupsCons(lines, max, Together(a, n), groups);
      groups := [Together(a, n)] + groups;
      assert [Block(lines[a..n])] + long == Flushed(Block(lines[a..n])) + WordPieces(lines[n], max) + LineGroups(lines, max, later);
    } else {
      assert Flushed(Block(lines[a..n])) + WordPieces(lines[n], max) == WordPieces(lines[n], max);
    }
  }

  lemma FittingRange(items: seq<string>, l: Limits, a: nat, n: nat, anew: bool)
    requires Fitting(items, l, a, n, anew)
    ensures a <= n <= |items|
  {
  }

  lemma NotOpenedMeansSome(items: seq<string>, l: Limits, a: nat, n: nat, anew: bool)
    requires Fitting(items, l, a, n, anew)
    ensures !anew ==> a < n
  {
  }

  lemma LinesLaidEnd(lines: seq<string>, max: nat, a: nat, anew: bool) returns (groups: seq<Group>)
    requires Fitting(lines, LineLimits(max), a, |lines|, anew)
    ensures Laid(lines, LineLimits(max), groups, a, anew) && Inside(lines, groups)
    ensures a <= |lines| && Flushed(Block(lines[a..])) == LineGroups(lines, max, groups)
  {
    hide Blank, ByteLen, Block, Fitting;
    FittingRange(lines, LineLimits(max), a, |lines|, anew);
    NoPrefix(max);
    SomeBlock(lines, a, |lines|);
    assert lines[a..] == lines[a..|lines|];
    if a < |lines| {
      LaidEnd(lines, LineLimits(max), a, anew);
      groups := [Together(a, |lines|)];
      assert groups == [Together(a, |lines|)] + [];
      LineGroupsCons(lines, max, Together(a, |lines|), []);
    } else {
      groups := [];
    }
  }

  /** A piece of lines is as large as it can be, and a line that is too large is cut on its own. */
  lemma LinesMeaning(text: string, maxChars: nat) returns (groups: seq<Group>)
    ensures var lines, max := Lines(text), AtLeastOne(maxChars);
            && Laid(lines, LineLimits(max), groups, 0, true) && Inside(lines, groups)
            && LinePieces(text, maxChars) == LineGroups(lines, max, groups)
  {
    hide Lines, GatherLines, Laid, Fitting;
    var lines := Lines(text);
    NoBlock(lines, 0);
    assert lines[0..] == lines;
    NothingYet(lines, LineLimits(AtLeastOne(maxChars)), 0);
    groups := LinesLaid(lines, AtLeastOne(maxChars), 0, 0, true);
  }

  // ---------- paragraphs that share a chunk ----------

  /** A paragraph that is too large is cut by lines; a heading comes before it as a piece of its own. */
  function ParaGroup(paras: seq<string>, l: Limits, g: Group): seq<Piece>
    requires InItems(paras, g)
  {
    match g
    case Together(a, b) => [Piece(true, Block(paras[a..b]))]
    case Oversize(at) => Flush(l.prefix, "") + Bare(LinePieces(paras[at], l.max))
  }

  function ParaGroups(paras: seq<string>, l: Limits, groups: seq<Group>): seq<Piece>
    requires Inside(paras, groups)
  {
    if groups == [] then [] else ParaGroup(paras, l, groups[0]) + ParaGroups(paras, l, groups[1..])
  }

  lemma ParaGroupsCons(paras: seq<string>, l: Limits, g: Group, rest: seq<Group>)
    requires InItems(paras, g) && Inside(paras, rest)
    ensures Inside(paras, [g] + rest) && ParaGroups(paras, l, [g] + rest) == ParaGroup(paras, l, g) + ParaGroups(paras, l, rest)
  {
    hide ParaGroup;
    assert ([g] + rest)[1..] == rest;
  }

  lemma ParagraphStep(paras: seq<string>, n: nat, l: Limits, part: string)
    requires n <= |paras|
    ensures n == |paras| ==> GatherParagraphs(paras[n..], l.prefix, part, l.max) == Flush(l.prefix, part)
    ensures n < |paras| ==>
              var (emitted, next) := Met(paras[n], l.prefix, part, l.max);
              GatherParagraphs(paras[n..], l.prefix, part, l.max) == emitted + GatherParagraphs(paras[n + 1..], l.prefix, next, l.max)
  {
    hide Met, Flush;
    if n < |paras| {
      assert paras[n..][1..] == paras[n + 1..];
    }
  }

  /** The buffer shows something: the heading, or a paragraph. */
  lemma BufferBlank(paras: seq<string>, l: Limits, a: nat, n: nat)
    requires a <= n <= |paras| && NoneBlank(paras)
    ensures Blank(l.prefix + Block(paras[a..n])) <==> Blank(l.prefix) && a == n
    ensures Blank(l.prefix + "") <==> Blank(l.prefix)
  {
    hide Blank, Block, Visible;
    var part := Block(paras[a..n]);
    BlankBlock(paras[a..n]);
    assert l.prefix + "" == l.prefix;
    VisibleConcat(l.prefix, part);
    BlankIsInvisible(l.prefix + part);
    BlankIsInvisible(l.prefix);
    BlankIsInvisible(part);
    if a < n {
      assert paras[a..n][0] == paras[a];
    }
  }

  lemma MetIs(para: string, l: Limits, part: string)
    ensures var full := ByteLen(l.prefix + part) + ByteLen(para) > l.max && !Blank(l.prefix + part);
            && (ByteLen(para) <= l.max && !full ==> Met(para, l.prefix, part, l.max) == ([], part + para + "\n"))
            && (ByteLen(para) <= l.max && full ==> Met(para, l.prefix, part, l.max) == ([Piece(true, part)], "" + para + "\n"))
  {
    hide ByteLen, Blank, Flush, Bare, LinePieces;
  }

  lemma MetLong(para: string, l: Limits, part: string)
    requires ByteLen(para) > l.max && (Blank(l.prefix + part) ==> part == "") && (Blank(l.prefix + "") <==> Blank(l.prefix))
    ensures var long := Flush(l.prefix, "") + Bare(LinePieces(para, l.max));
            Met(para, l.prefix, part, l.max) == (if Blank(l.prefix + part) then long else [Piece(true, part)] + long, "")
  {
    hide ByteLen, Blank, Bare, LinePieces, Flush;
    if Blank(l.prefix + part) {
      assert [] + Flush(l.prefix, part) == Flush(l.prefix, part);
    } else {
      assert [Piece(true, part)] + Flush(l.prefix, "") + Bare(LinePieces(para, l.max))
          == [Piece(true, part)] + (Flush(l.prefix, "") + Bare(LinePieces(para, l.max)));
    }
  }

  lemma {:induction false} ParagraphsLaid(paras: seq<string>, l: Limits, a: nat, n: nat, anew: bool) returns (groups: seq<Group>)
    requires l.slack == 0 && NoneBlank(paras) && Fitting(paras, l, a, n, anew)
    ensures Laid(paras, l, groups, a, anew) && Inside(paras, groups)
    ensures GatherParagraphs(paras[n..], l.prefix, Block(paras[a..n]), l.max) == ParaGroups(paras, l, groups)
    decreases |paras| - n
  {
    hide Blank, ByteLen, Block, Laid, Fitting, Inside, ParaGroups, GatherParagraphs, Flush, Bare, LinePieces, Met, NoneBlank;
    FittingRange(paras, l, a, n, anew);
    NotOpenedMeansSome(paras, l, a, n, anew);
    var part := Block(paras[a..n]);
    ParagraphStep(paras, n, l, part);
    BufferBlank(paras, l, a, n);
    NoBlock(paras, n);
    if n == |paras| {
      groups := ParagraphsEnd(paras, l, a, anew);
    } else if ByteLen(paras[n]) > l.max {
      NoBlock(paras, n + 1);
      NothingYet(paras, l, n + 1);
      MetLong(paras[n], l, part);
      var later := ParagraphsLaid(paras, l, n + 1, n + 1, true);
      groups := ParagraphsAroundLong(paras, l, a, n, anew, later);
    } else {
      MetIs(paras[n], l, part);
      if ByteLen(l.prefix + part) + ByteLen(paras[n]) > l.max && !Blank(l.prefix + part) {
        FirstAfter(paras, l, n);
        BlockGrows(paras, n, n);
        var later := ParagraphsLaid(paras, l, n, n + 1, false);
        LaidFull(paras, l, a, n, anew, later);
        ParaGroupsCons(paras, l, Together(a, n), later);
        groups := [Together(a, n)] + later;
      } else {
        BlockGrows(paras, a, n);
        ParagraphFits(paras, l, a, n, anew);
        groups := ParagraphsLaid(paras, l, a, n + 1, anew);
        assert [] + ParaGroups(paras, l, groups) == ParaGroups(paras, l, groups);
      }
    }
  }

  lemma ParagraphFits(paras: seq<string>, l: Limits, a: nat, n: nat, anew: bool)
    requires l.slack == 0 && Fitting(paras, l, a, n, anew) && n < |paras| && ByteLen(paras[n]) <= l.max
    requires ByteLen(l.prefix + Block(paras[a..n])) + ByteLen(paras[n]) <= l.max || (a == n && Blank(l.prefix))
    ensures Fitting(paras, l, a, n + 1, anew)
  {
    hide Fitting, ByteLen, Block, Blank;
    OneMore(paras, l, a, n, anew);
  }

  lemma ParagraphsEnd(paras: seq<string>, l: Limits, a: nat, anew: bool) returns (groups: seq<Group>)
    requires Fitting(paras, l, a, |paras|, anew) && NoneBlank(paras)
    ensures Laid(paras, l, groups, a, anew) && Inside(paras, groups)
    ensures a <= |paras| && Flush(l.prefix, Block(paras[a..|paras|])) == ParaGroups(paras, l, groups)
  {
    hide Blank, ByteLen, Block, Fitting, NoneBlank;
    FittingRange(paras, l, a, |paras|, anew);
    BufferBlank(paras, l, a, |paras|);
    if a == |paras| && Blank(l.prefix) {
      groups := [];
    } else {
      LaidEnd(paras, l, a, anew);
      groups := [Together(a, |paras|)];
      assert groups == [Together(a, |paras|)] + [];
      ParaGroupsCons(paras, l, Together(a, |paras|), []);
    }
  }

  lemma ParagraphsAroundLong(paras: seq<string>, l: Limits, a: nat, n: nat, anew: bool, later: seq<Group>) returns (groups: seq<Group>)
    requires Fitting(paras, l, a, n, anew) && n < |paras| && ByteLen(paras[n]) > l.max && (Blank(l.prefix) && a == n ==> anew)
    requires Laid(paras, l, later, n + 1, true) && Inside(paras, later)
    ensures Laid(paras, l, groups, a, anew) && Inside(paras, groups)
    ensures var long := Flush(l.prefix, "") + Bare(LinePieces(paras[n], l.max));
            var before := if Blank(l.prefix) && a == n then long else [Piece(true, Block(paras[a..n]))] + long;
            ParaGroups(paras, l, groups) == before + ParaGroups(paras, l, later)
  {
    hide Fitting, ByteLen, Block, Blank, Laid, Inside, ParaGroups, Flush, Bare, LinePieces;
    FittingRange(paras, l, a, n, anew);
    var long := Flush(l.prefix, "") + Bare(LinePieces(paras[n], l.max));
    LaidOversize(paras, l, n, Blank(l.prefix) && a == n, later);
    ParaGroupsCons(paras, l, Oversize(n), later);
    groups := [Oversize(n)] + later;
    if !(Blank(l.prefix) && a == n) {
      LaidFull(paras, l, a, n, anew, groups);
      ParaGroupsCons(paras, l, Together(a, n), groups);
      groups := [Together(a, n)] + groups;
      assert [Piece(true, Block(paras[a..n]))] + (long + ParaGroups(paras, l, later))
          == [Piece(true, Block(paras[a..n]))] + long + ParaGroups(paras, l, later);
    }
  }

  /**
   * A section that fits is one chunk behind its heading.  Otherwise its paragraphs share chunks as
   * far as they fit, each behind the heading, and a paragraph that is too large is cut by lines.
   */
  lemma SectionMeaning(section: Section, max: nat) returns (groups: seq<Group>)
    ensures var l := Limits(Prefix(section.heading), 0, max);
            var paras := BlankLineParts(section.body);
            if ByteLen(section.body) + ByteLen(l.prefix) <= max then SectionPieces(section, max) == [Piece(true, section.body)]
            else && Laid(paras, l, groups, 0, true) && Inside(paras, groups)
                 && SectionPieces(section, max) == ParaGroups(paras, l, groups)
  {
    hide BlankLineParts, GatherParagraphs, Laid, Fitting, NoneBlank, ByteLen, Prefix;
    var l := Limits(Prefix(section.heading), 0, max);
    var paras := BlankLineParts(section.body);
    BlankLinePartsKeep(section.body);
    NoBlock(paras, 0);
    assert paras[0..] == paras;
    NothingYet(paras, l, 0);
    groups := ParagraphsLaid(paras, l, 0, 0, true);
  }
}
