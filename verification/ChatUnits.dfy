/** Splitting a canonical chat blob at its message headers. */
module ChatUnits {
  import opened Options
  import opened TextScan
  import opened Unicode

  /** Lines with their line feeds; the last may have none. */
  function LinesInclusive(s: string): (lines: seq<string>)
    ensures s != [] ==> lines != []
    ensures forall i :: 0 <= i < |lines| ==> lines[i] != []
  {
    if s == [] then []
    else
      var at := FirstIndex(s, '\n');
      if at == |s| then [s] else [s[..at + 1]] + LinesInclusive(s[at + 1..])
  }

  predicate IsHeader(line: string) {
    "## " <= line
  }

  function Taken(current: Option<string>): seq<string> {
    if current.Some? then [current.value] else []
  }

  function Extended(current: Option<string>, line: string): Option<string> {
    if current.Some? then Some(current.value + line) else None
  }

  /** Each header starts a message; lines before the first are dropped. */
  function MessagesFrom(lines: seq<string>, current: Option<string>): seq<string> {
    if lines == [] then Taken(current)
    else if IsHeader(lines[0]) then Taken(current) + MessagesFrom(lines[1..], Some(lines[0]))
    else MessagesFrom(lines[1..], Extended(current, lines[0]))
  }

  /** The messages of a blob, with what follows them up to the next header. */
  function Messages(md: string): seq<string> {
    MessagesFrom(LinesInclusive(md), None)
  }

  function Trimmed(messages: seq<string>): seq<string> {
    seq(|messages|, i requires 0 <= i < |messages| => TrimEnd(messages[i]))
  }

  /** The units of a blob: its messages, or all of it when it has none. */
  function ChatMessages(md: string): seq<string> {
    if Messages(md) == [] && Trim(md) != [] then [TrimEnd(md)] else Trimmed(Messages(md))
  }

  // ---------- the messages are the blob, cut before each header ----------

  /** What comes before the first header. */
  function Preamble(lines: seq<string>): string {
    if lines == [] || IsHeader(lines[0]) then "" else lines[0] + Preamble(lines[1..])
  }

  predicate LineEnded(s: string) {
    s == [] || s[|s| - 1] == '\n'
  }

  /** A header at the start and at no later start of a line. */
  predicate OneMessage(message: string) {
    IsHeader(message) && forall at {:trigger message[at..]} :: 0 < at < |message| && message[at - 1] == '\n' ==> !IsHeader(message[at..])
  }

  /** Lines as they come from a text: a line feed only at the end, and in all but the last. */
  ghost predicate ProperLines(lines: seq<string>) {
    && (forall i :: 0 <= i < |lines| ==> ProperLine(lines[i]))
    && (forall i :: 0 <= i < |lines| - 1 ==> LineEnded(lines[i]))
  }

  predicate ProperLine(line: string) {
    line != [] && forall j :: 0 <= j < |line| - 1 ==> line[j] != '\n'
  }

  lemma ProperFirst(first: string, rest: seq<string>)
    requires ProperLine(first) && (rest != [] ==> LineEnded(first)) && ProperLines(rest)
    ensures ProperLines([first] + rest)
  {
    hide ProperLine, LineEnded;
  }

  lemma LinesCut(s: string, at: nat)
    requires at < |s| && s[at] == '\n' && forall i :: 0 <= i < at ==> s[i] != '\n'
    ensures LinesInclusive(s) == [s[..at + 1]] + LinesInclusive(s[at + 1..])
  {
    FirstIndexIs(s, '\n', at);
  }

  lemma NoLines()
    ensures Concat([]) == [] && LinesInclusive([]) == [] && ProperLines([])
  {
  }

  lemma FirstLine(s: string, at: nat)
    requires at == FirstIndex(s, '\n')
    ensures at < |s| ==> ProperLine(s[..at + 1]) && LineEnded(s[..at + 1])
    ensures at == |s| > 0 ==> ProperLines([s]) && LinesInclusive(s) == [s]
  {
  }

  lemma {:induction false} LinesProper(s: string)
    ensures ProperLines(LinesInclusive(s)) && Concat(LinesInclusive(s)) == s
    decreases |s|
  {
    hide Concat, ProperLines, FirstIndex, ProperLine, LineEnded, LinesInclusive;
    if s == [] {
      NoLines();
    } else {
      var at := FirstIndex(s, '\n');
      FirstLine(s, at);
      if at == |s| {
        ConcatOne(s);
      } else {
        var first, rest := s[..at + 1], s[at + 1..];
        LinesCut(s, at);
        LinesProper(rest);
        ProperFirst(first, LinesInclusive(rest));
        ConcatFirst([first] + LinesInclusive(rest));
        assert s == first + rest;
      }
    }
  }

  lemma OneLineMessage(line: string)
    requires ProperLine(line) && IsHeader(line)
    ensures OneMessage(line)
  {
  }

  lemma HeaderAt(s: string, at: nat)
    requires at <= |s|
    ensures IsHeader(s[at..]) <==> at + 3 <= |s| && s[at] == '#' && s[at + 1] == '#' && s[at + 2] == ' '
  {
    var rest := s[at..];
    if |rest| >= 3 {
      assert rest[..3] == [rest[0], rest[1], rest[2]];
      assert rest[0] == s[at] && rest[1] == s[at + 1] && rest[2] == s[at + 2];
    }
  }

  lemma LineJoins(message: string, line: string)
    requires OneMessage(message) && LineEnded(message) && ProperLine(line) && !IsHeader(line)
    ensures OneMessage(message + line)
  {
    hide IsHeader;
    var whole := message + line;
    HeaderAt(message, 0);
    HeaderAt(whole, 0);
    assert message[0..] == message && whole[0..] == whole;
    assert forall j :: |message| <= j < |whole| - 1 ==> whole[j] != '\n';
    forall at {:trigger whole[at..]} | 0 < at <= |message| && whole[at - 1] == '\n' ensures !IsHeader(whole[at..]) {
      HeaderAt(whole, at);
      if at < |message| {
        HeaderAt(message, at);
        assert message[at - 1] == '\n' && !IsHeader(message[at..]);
        assert whole[|message| - 1] == '\n';
      } else {
        assert whole[at..] == line;
      }
    }
  }

  lemma {:induction false} MessagesTileFrom(lines: seq<string>, current: Option<string>)
    requires ProperLines(lines)
    requires current.Some? ==> OneMessage(current.value) && (lines != [] ==> LineEnded(current.value))
    ensures forall m :: m in MessagesFrom(lines, current) ==> OneMessage(m)
    ensures (if current.Some? then Concat(MessagesFrom(lines, current)) == current.value + Concat(lines)
             else Preamble(lines) + Concat(MessagesFrom(lines, current)) == Concat(lines))
    decreases |lines|
  {
    hide OneMessage, IsHeader, ProperLine, LineEnded, Concat, Taken;
    OneTaken(current);
    if lines == [] {
      assert current.Some? ==> current.value + [] == current.value;
    } else {
      var line, rest := lines[0], lines[1..];
      ConcatFirst(lines);
      if IsHeader(line) {
        OneLineMessage(line);
        MessagesTileFrom(rest, Some(line));
        ConcatAppend(Taken(current), MessagesFrom(rest, Some(line)));
      } else {
        if current.Some? {
          LineJoins(current.value, line);
          LineStaysEnded(current.value, line);
        }
        MessagesTileFrom(rest, Extended(current, line));
      }
    }
  }

  lemma LineStaysEnded(message: string, line: string)
    requires ProperLine(line)
    ensures LineEnded(message + line) == LineEnded(line)
  {
  }

  lemma OneTaken(current: Option<string>)
    ensures Concat(Taken(current)) == (if current.Some? then current.value else []) && Concat([]) == []
    ensures forall m :: m in Taken(current) <==> current == Some(m)
  {
    if current.Some? {
      ConcatOne(current.value);
    }
  }

  /** Nothing after the first header is lost, moved or joined: the messages follow it end to end, each with one header. */
  lemma MessagesTile(md: string)
    ensures Preamble(LinesInclusive(md)) + Concat(Messages(md)) == md
    ensures forall m :: m in Messages(md) ==> OneMessage(m)
  {
    hide OneMessage;
    LinesProper(md);
    MessagesTileFrom(LinesInclusive(md), None);
  }

  /** The unit is the message up to the white space at its end. */
  ghost predicate UpToSpace(unit: string, message: string) {
    unit <= message && AllSpace(message[|unit|..]) && unit != [] && !IsWhitespace(unit[|unit| - 1])
  }

  /** Each message is a unit, up to the white space after it; a blob without a message is one, unless it is blank. */
  lemma UnitsAreMessages(md: string)
    ensures var units, messages := ChatMessages(md), Messages(md);
            && (messages != [] ==> |units| == |messages| && forall i :: 0 <= i < |units| ==> UpToSpace(units[i], messages[i]))
            && (messages == [] && !AllSpace(md) ==> |units| == 1 && UpToSpace(units[0], md))
            && (messages == [] && AllSpace(md) ==> units == [])
  {
    hide OneMessage, IsWhitespace, TrimEnd, Trim, AllSpace, MessagesFrom, LinesInclusive;
    var messages := Messages(md);
    var from, to := TrimMeaning(md);
    TrimEndMeaning(md);
    if TrimEnd(md) == [] {
      assert md[0..] == md;
    }
    forall i | 0 <= i < |messages| ensures UpToSpace(TrimEnd(messages[i]), messages[i]) {
      TrimEndMeaning(messages[i]);
      MessageStays(md, messages[i]);
    }
  }

  lemma MessageStays(md: string, message: string)
    requires message in Messages(md)
    ensures TrimEnd(message) != []
  {
    hide LinesInclusive, MessagesFrom;
    MessagesTile(md);
    HeaderStays(message);
  }

  // ---------- message boundaries ----------

  /** The blob has a message header at the start of a line. */
  ghost predicate HasHeader(md: string) {
    exists line :: line in LinesInclusive(md) && IsHeader(line)
  }

  lemma {:induction false} HeaderMakesMessage(lines: seq<string>, current: Option<string>)
    ensures MessagesFrom(lines, current) == [] <==> current.None? && forall line :: line in lines ==> !IsHeader(line)
    decreases |lines|
  {
    hide IsHeader;
    if lines != [] {
      var line, rest := lines[0], lines[1..];
      assert lines == [line] + rest;
      HeaderMakesMessage(rest, if IsHeader(line) then Some(line) else Extended(current, line));
    }
  }

  lemma {:induction false} LinesJoin(l: string, r: string)
    requires LineEnded(l)
    ensures LinesInclusive(l + r) == LinesInclusive(l) + LinesInclusive(r)
  {
    hide LinesInclusive;
    if l == [] {
      NoLines();
      assert l + r == r;
    } else {
      var at := FirstIndex(l, '\n');
      LinesCut(l, at);
      LinesCut(l + r, at);
      assert (l + r)[..at + 1] == l[..at + 1] && (l + r)[at + 1..] == l[at + 1..] + r;
      LinesJoin(l[at + 1..], r);
    }
  }

  lemma HeaderFirst(r: string)
    requires IsHeader(r)
    ensures LinesInclusive(r) != [] && IsHeader(LinesInclusive(r)[0])
  {
    assert r[..3] == "## ";
    assert r[0] == r[..3][0] && r[1] == r[..3][1] && r[2] == r[..3][2];
  }

  lemma NoneTaken()
    ensures Taken(None) == []
  {
  }

  lemma {:induction false} MessagesJoin(a: seq<string>, b: seq<string>, current: Option<string>)
    requires b != [] && IsHeader(b[0])
    ensures MessagesFrom(a + b, current) == MessagesFrom(a, current) + MessagesFrom(b, None)
    decreases |a|
  {
    hide IsHeader, Extended, Taken;
    NoneTaken();
    if a == [] {
      assert a + b == b;
    } else {
      assert (a + b)[1..] == a[1..] + b;
      MessagesJoin(a[1..], b, if IsHeader(a[0]) then Some(a[0]) else Extended(current, a[0]));
    }
  }

  /** Cutting a blob before a header cuts its messages there. */
  lemma JoinMessages(l: string, r: string)
    requires LineEnded(l) && IsHeader(r)
    ensures Messages(l + r) == Messages(l) + Messages(r) && Messages(r) != []
  {
    hide IsHeader, LineEnded;
    LinesJoin(l, r);
    HeaderFirst(r);
    MessagesJoin(LinesInclusive(l), LinesInclusive(r), None);
    HeaderMakesMessage(LinesInclusive(r), None);
  }

  /** Splitting is a homomorphism at a message boundary exactly when the left part is blank or has a message of its own. */
  lemma SplitsAtBoundary(l: string, r: string)
    requires LineEnded(l) && IsHeader(r)
    ensures ChatMessages(l + r) == ChatMessages(l) + ChatMessages(r) <==> Trim(l) == [] || HasHeader(l)
  {
    hide IsHeader, LineEnded, LinesInclusive, MessagesFrom, Trim, TrimEnd;
    JoinMessages(l, r);
    HeaderMakesMessage(LinesInclusive(l), None);
    assert Trimmed(Messages(l) + Messages(r)) == Trimmed(Messages(l)) + Trimmed(Messages(r));
    if Messages(l) == [] && Trim(l) != [] {
      assert |ChatMessages(l + r)| != |ChatMessages(l) + ChatMessages(r)|;
    }
  }

  /** Visible text without a header is a unit of its own, but is dropped once a message follows. */
  lemma PreambleIsDropped(l: string, r: string)
    requires LineEnded(l) && IsHeader(r) && Trim(l) != [] && !HasHeader(l)
    ensures ChatMessages(l) == [TrimEnd(l)] && ChatMessages(l + r) == ChatMessages(r)
  {
    hide IsHeader, LineEnded, LinesInclusive, MessagesFrom, Trim, TrimEnd, Trimmed;
    JoinMessages(l, r);
    HeaderMakesMessage(LinesInclusive(l), None);
    assert [] + Messages(r) == Messages(r);
  }

  /** For instance the heading of a transcript. */
  lemma IntroIsDropped()
    ensures var l, r := "# intro\n", "## a\n";
            LineEnded(l) && IsHeader(r) && ChatMessages(l + r) != ChatMessages(l) + ChatMessages(r)
  {
    hide Trim, TrimEnd, ChatMessages;
    var l, r := "# intro\n", "## a\n";
    OneLineOnly(l);
    TrimKeeps(l);
    assert IsHeader(r) && !IsHeader(l) by {
      HeaderAt(r, 0);
      HeaderAt(l, 0);
      assert l[0..] == l && r[0..] == r && l[1] == ' ';
    }
    PreambleIsDropped(l, r);
  }

  lemma OneLineOnly(s: string)
    requires s != [] && s[|s| - 1] == '\n' && forall i :: 0 <= i < |s| - 1 ==> s[i] != '\n'
    ensures LinesInclusive(s) == [s]
  {
    LinesCut(s, |s| - 1);
    NoLines();
    assert s[|s|..] == [] && s[..|s|] == s;
  }

  lemma TrimKeeps(s: string)
    requires s != [] && !IsWhitespace(s[0])
    ensures Trim(s) != []
  {
    FirstCharacterStays(s);
  }

  // ---------- white space between messages ----------

  lemma {:induction false} SpaceLines(s: string)
    requires AllSpace(s)
    ensures forall line :: line in LinesInclusive(s) ==> AllSpace(line)
  {
    if s != [] {
      var at := FirstIndex(s, '\n');
      if at < |s| {
        SpaceLines(s[at + 1..]);
      }
    }
  }

  lemma SpaceIsNoHeader(line: string)
    requires AllSpace(line)
    ensures !IsHeader(line)
  {
    hide IsHeader;
    HeaderAt(line, 0);
    assert line[0..] == line;
  }

  /** Equal up to white space at the end of each. */
  ghost predicate Alike(a: seq<string>, b: seq<string>) {
    |a| == |b| && forall i :: 0 <= i < |a| ==> TrimEnd(a[i]) == TrimEnd(b[i])
  }

  lemma {:induction false} SpaceAfter(a: seq<string>, space: seq<string>, current: Option<string>)
    requires forall line :: line in space ==> AllSpace(line)
    ensures Alike(MessagesFrom(a + space, current), MessagesFrom(a, current))
    decreases |a|
  {
    hide IsHeader, AllSpace, TrimEnd;
    if a == [] {
      assert a + space == space;
      SpaceOnly(space, current);
    } else {
      assert (a + space)[1..] == a[1..] + space;
      SpaceAfter(a[1..], space, if IsHeader(a[0]) then Some(a[0]) else Extended(current, a[0]));
    }
  }

  lemma {:induction false} SpaceOnly(space: seq<string>, current: Option<string>)
    requires forall line :: line in space ==> AllSpace(line)
    ensures Alike(MessagesFrom(space, current), Taken(current))
    decreases |space|
  {
    hide IsHeader, AllSpace, TrimEnd;
    if space != [] {
      SpaceIsNoHeader(space[0]);
      SpaceOnly(space[1..], Extended(current, space[0]));
      if current.Some? {
        SpaceTrims(current.value, space[0]);
      }
    }
  }

  lemma SpaceTrims(s: string, space: string)
    requires AllSpace(space)
    ensures TrimEnd(s + space) == TrimEnd(s)
  {
    TrimEndAppend(s, space);
  }

  function EndLast(lines: seq<string>): seq<string>
    requires lines != []
  {
    lines[..|lines| - 1] + [lines[|lines| - 1] + "\n"]
  }

  lemma EndLater(first: string, later: seq<string>)
    requires later != []
    ensures EndLast([first] + later) == [first] + EndLast(later)
  {
  }

  lemma LastLineAlone(s: string)
    requires !LineEnded(s) && FirstIndex(s, '\n') == |s|
    ensures LinesInclusive(s) == [s] && EndLast([s]) == [s + "\n"]
  {
  }

  lemma EndedRest(s: string, at: nat)
    requires !LineEnded(s) && at < |s| && s[at] == '\n'
    ensures !LineEnded(s[at + 1..]) && s[at + 1..] != []
    ensures (s + "\n")[..at + 1] == s[..at + 1] && (s + "\n")[at + 1..] == s[at + 1..] + "\n"
  {
  }

  lemma {:induction false} LastLineEnds(s: string)
    requires !LineEnded(s)
    ensures LinesInclusive(s + "\n") == EndLast(LinesInclusive(s))
    decreases |s|
  {
    hide LinesInclusive, FirstIndex, EndLast, LineEnded;
    var at := FirstIndex(s, '\n');
    var ended := s + "\n";
    LinesCut(ended, at);
    if at == |s| {
      assert ended[..at + 1] == ended && ended[at + 1..] == [];
      NoLines();
      LastLineAlone(s);
    } else {
      var first, rest := s[..at + 1], s[at + 1..];
      LinesCut(s, at);
      EndedRest(s, at);
      LastLineEnds(rest);
      EndLater(first, LinesInclusive(rest));
    }
  }

  lemma HeaderLineEnds(line: string)
    ensures IsHeader(line + "\n") == IsHeader(line)
  {
    hide IsHeader;
    var ended := line + "\n";
    HeaderAt(line, 0);
    HeaderAt(ended, 0);
    assert line[0..] == line && ended[0..] == ended;
  }

  lemma {:induction false} LineFeedAfter(front: seq<string>, last: string, current: Option<string>)
    ensures Alike(MessagesFrom(front + [last + "\n"], current), MessagesFrom(front + [last], current))
    decreases |front|
  {
    hide IsHeader, TrimEnd;
    if front == [] {
      assert front + [last + "\n"] == [last + "\n"] && front + [last] == [last];
      HeaderLineEnds(last);
      assert AllSpace("\n");
      SpaceTrims(last, "\n");
      if current.Some? {
        SpaceTrims(current.value + last, "\n");
        assert current.value + (last + "\n") == current.value + last + "\n";
      }
    } else {
      assert (front + [last + "\n"])[1..] == front[1..] + [last + "\n"] && (front + [last])[1..] == front[1..] + [last];
      LineFeedAfter(front[1..], last, if IsHeader(front[0]) then Some(front[0]) else Extended(current, front[0]));
    }
  }

  lemma EndedMessages(m: string)
    requires !LineEnded(m)
    ensures Alike(Messages(m + "\n"), Messages(m))
  {
    hide TrimEnd;
    var lines := LinesInclusive(m);
    LastLineEnds(m);
    assert lines == lines[..|lines| - 1] + [lines[|lines| - 1]];
    LineFeedAfter(lines[..|lines| - 1], lines[|lines| - 1], None);
  }

  lemma SpacedMessages(m: string, space: string)
    requires AllSpace(space) && LineEnded(m)
    ensures Alike(Messages(m + space), Messages(m))
  {
    hide TrimEnd, LineEnded;
    LinesJoin(m, space);
    SpaceLines(space);
    SpaceAfter(LinesInclusive(m), LinesInclusive(space), None);
  }

  /** Blank lines after the messages do not change the units. */
  lemma BlankLinesAfter(m: string, space: string)
    requires AllSpace(space) && (space != [] ==> space[0] == '\n') && Messages(m) != []
    ensures ChatMessages(m + space) == ChatMessages(m) && Messages(m + space) != []
  {
    hide TrimEnd, Trim, MessagesFrom, LinesInclusive;
    if LineEnded(m) {
      SpacedMessages(m, space);
    } else if space == [] {
      assert m + space == m;
    } else {
      EndedMessages(m);
      assert m + space == (m + "\n") + space[1..];
      SpacedMessages(m + "\n", space[1..]);
    }
    assert Alike(Messages(m + space), Messages(m));
    assert Trimmed(Messages(m + space)) == Trimmed(Messages(m));
  }

  // ---------- the loop ----------

  lemma HeaderStays(s: string)
    requires IsHeader(s)
    ensures TrimEnd(s) != []
  {
    assert s[..3] == "## ";
    assert s[0] == s[..3][0];
    FirstCharacterStays(s);
  }

  lemma {:induction false} FirstCharacterStays(s: string)
    requires s != [] && !IsWhitespace(s[0])
    ensures TrimEnd(s) != []
  {
    if IsWhitespace(s[|s| - 1]) {
      FirstCharacterStays(s[..|s| - 1]);
    }
  }

  lemma HeaderGrows(message: string, line: string)
    requires IsHeader(message)
    ensures IsHeader(message + line)
  {
    assert (message + line)[..3] == message[..3];
  }

  lemma MessagesNext(messages: seq<string>, lines: seq<string>, i: nat, current: Option<string>)
    requires i < |lines|
    ensures messages + MessagesFrom(lines[i..], current)
         == if IsHeader(lines[i]) then messages + Taken(current) + MessagesFrom(lines[i + 1..], Some(lines[i]))
            else messages + MessagesFrom(lines[i + 1..], Extended(current, lines[i]))
  {
    hide IsHeader, Taken, Extended;
    assert lines[i..][1..] == lines[i + 1..];
  }

  lemma NoMoreMessages(lines: seq<string>, current: Option<string>)
    requires lines == []
    ensures MessagesFrom(lines, current) == Taken(current)
  {
  }

  lemma TrimmedCount(messages: seq<string>)
    ensures |Trimmed(messages)| == |messages|
  {
  }

  lemma TrimmedJoin(a: seq<string>, b: seq<string>)
    ensures Trimmed(a + b) == Trimmed(a) + Trimmed(b)
  {
    hide TrimEnd;
  }

  method SplitChatMessages(md: string) returns (pieces: seq<string>)
    ensures pieces == ChatMessages(md)
  {
    hide TrimEnd, Trim, IsHeader, MessagesFrom, Trimmed;
    pieces := [];
    var current: Option<string> := None;
    var lines := LinesInclusive(md);
    assert lines[0..] == lines;
    ghost var messages: seq<string> := [];
    TrimmedCount([]);
    for i := 0 to |lines|
      invariant current.Some? ==> IsHeader(current.value)
      invariant pieces == Trimmed(messages)
      invariant messages + MessagesFrom(lines[i..], current) == Messages(md)
    {
      var line := lines[i];
      MessagesNext(messages, lines, i, current);
      if IsHeader(line) {
        pieces := PushTrimmed(pieces, current);
        TrimmedJoin(messages, Taken(current));
        messages := messages + Taken(current);
        current := Some(line);
      } else if current.Some? {
        HeaderGrows(current.value, line);
        current := Some(current.value + line);
      }
    }
    pieces := PushTrimmed(pieces, current);
    TrimmedJoin(messages, Taken(current));
    NoMoreMessages(lines[|lines|..], current);
    TrimmedCount(Messages(md));
    if pieces == [] && Trim(md) != [] {
      pieces := [TrimEnd(md)];
    }
  }

  method PushTrimmed(pieces: seq<string>, current: Option<string>) returns (out: seq<string>)
    requires current.Some? ==> IsHeader(current.value)
    ensures out == pieces + Trimmed(Taken(current))
  {
    hide TrimEnd, IsHeader;
    out := pieces;
    if current.Some? {
      HeaderStays(current.value);
      var trimmed := TrimEnd(current.value);
      if trimmed != [] {
        out := out + [trimmed];
      }
    }
  }
}
