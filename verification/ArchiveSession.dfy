/** Sequence numbers of one archived session: naming files, choosing the next number, reading all back. */
module ArchiveSession {
  import opened Archive
  import opened Decimal
  import opened Options
  import opened Unicode

  const EXTENSION := ".md"

  function FileName(n: nat): string {
    Padded(n, 6) + EXTENSION
  }

  function Stem(name: string): Option<string> {
    if |name| >= |EXTENSION| && name[|name| - |EXTENSION|..] == EXTENSION then Some(name[..|name| - |EXTENSION|]) else None
  }

  /** The number a listing entry stands for, as the search for the next number reads it. */
  function Listed(name: string): Option<int> {
    var stem := Stem(name);
    if stem.Some? then ParseI64(stem.value) else None
  }

  /** The same as the reader of a session reads it. */
  function Numbered(name: string): Option<nat> {
    var stem := Stem(name);
    if stem.Some? then ParseUnsigned(stem.value, U32_LIMIT) else None
  }

  lemma FileNameRead(n: nat)
    requires n < U32_LIMIT
    ensures Listed(FileName(n)) == Some(n) && Numbered(FileName(n)) == Some(n)
  {
    ParsePadded(n, 6);
    var digits := Padded(n, 6);
    hide Padded, ParseNat;
    assert FileName(n)[..|digits|] == digits && FileName(n)[|digits|..] == EXTENSION;
  }

  /** The number after the largest listed one, in 32 bits; zero when nothing is listed. */
  ghost predicate IsNext(listed: set<nat>, next: nat) {
    if listed == {} then next == 0
    else exists m :: m in listed && (forall x :: x in listed ==> x <= m) && next == (m + 1) % U32_LIMIT
  }

  /** The numbers a listing contains. */
  ghost predicate Lists(names: seq<string>, listed: set<nat>) {
    && (forall x :: x in listed ==> exists i :: 0 <= i < |names| && Listed(names[i]) == Some(x))
    && (forall i :: 0 <= i < |names| && Listed(names[i]).Some? && Listed(names[i]).value >= 0 ==> Listed(names[i]).value in listed)
  }

  method NextSeq(names: seq<string>, ghost listed: set<nat>) returns (next: nat)
    requires Lists(names, listed)
    ensures IsNext(listed, next)
  {
    hide Listed;
    var max: int := -1;
    for i := 0 to |names|
      invariant -1 <= max && (max >= 0 ==> max in listed)
      invariant forall k :: 0 <= k < i && Listed(names[k]).Some? ==> Listed(names[k]).value <= max
    {
      var n := Listed(names[i]);
      if n.Some? && n.value > max {
        max := n.value;
      }
    }
    if max >= 0 {
      assert forall x :: x in listed ==> x <= max;
    } else {
      assert forall x :: x in listed ==> x <= max;
      assert listed == {};
    }
    next := (max + 1) % U32_LIMIT;
  }

  // ---------- reading a session ----------

  type Entry = (nat, string)

  function InsertedByNumber(e: Entry, s: seq<Entry>): seq<Entry> {
    if s == [] || e.0 < s[0].0 then [e] + s else [s[0]] + InsertedByNumber(e, s[1..])
  }

  /** The numbered files of a directory, in ascending order of their numbers. */
  function SortedEntries(dir: seq<(string, string)>): seq<Entry> {
    if dir == [] then []
    else
      var last := dir[|dir| - 1];
      var front := SortedEntries(dir[..|dir| - 1]);
      if Numbered(last.0).Some? then InsertedByNumber((Numbered(last.0).value, last.1), front) else front
  }

  function ParsedAll(entries: seq<Entry>): seq<Turn> {
    if entries == [] then []
    else
      var turn := Parsed(entries[|entries| - 1].1);
      ParsedAll(entries[..|entries| - 1]) + if turn.Some? then [turn.value] else []
  }

  method SessionEntries(dir: seq<(string, string)>) returns (turns: seq<Turn>)
    ensures turns == ParsedAll(SortedEntries(dir))
  {
    var files: seq<Entry> := [];
    for i := 0 to |dir|
      invariant files == SortedEntries(dir[..i])
    {
      assert dir[..i + 1][..i] == dir[..i];
      var number := Numbered(dir[i].0);
      if number.Some? {
        files := InsertedByNumber((number.value, dir[i].1), files);
      }
    }
    assert dir[..|dir|] == dir;
    turns := [];
    for i := 0 to |files|
      invariant turns == ParsedAll(files[..i])
    {
      assert files[..i + 1][..i] == files[..i];
      var turn := ParseTurn(files[i].1);
      if turn.Some? {
        turns := turns + [turn.value];
      }
    }
    assert files[..|files|] == files;
  }

  ghost predicate AscendingNumbers(s: seq<Entry>) {
    forall i, j :: 0 <= i < j < |s| ==> s[i].0 < s[j].0
  }

  lemma {:induction false} InsertedMembers(e: Entry, s: seq<Entry>)
    ensures forall x :: x in InsertedByNumber(e, s) <==> x == e || x in s
    ensures AscendingNumbers(s) && (forall x :: x in s ==> x.0 != e.0) ==> AscendingNumbers(InsertedByNumber(e, s))
  {
    if s != [] && e.0 >= s[0].0 {
      assert s == [s[0]] + s[1..];
      InsertedMembers(e, s[1..]);
      if AscendingNumbers(s) && forall x :: x in s ==> x.0 != e.0 {
        var r := InsertedByNumber(e, s[1..]);
        forall j | 0 <= j < |r| ensures s[0].0 < r[j].0 {
          assert r[j] in r;
          if r[j] != e {
            var k :| 0 <= k < |s[1..]| && s[1..][k] == r[j];
            assert s[k + 1] == r[j];
          }
        }
      }
    }
  }

  lemma EmptyAscending()
    ensures AscendingNumbers([])
  {
  }

  /** The directory has a file with this number and text. */
  ghost predicate InDirectory(dir: seq<(string, string)>, x: Entry) {
    exists i :: 0 <= i < |dir| && Numbered(dir[i].0) == Some(x.0) && dir[i].1 == x.1
  }

  /** Sorting keeps the numbered files and orders them strictly, when no number repeats. */
  lemma {:induction false} SortedEntriesCorrect(dir: seq<(string, string)>)
    requires forall i, j :: 0 <= i < j < |dir| && Numbered(dir[i].0).Some? ==> Numbered(dir[i].0) != Numbered(dir[j].0)
    ensures AscendingNumbers(SortedEntries(dir))
    ensures forall x :: x in SortedEntries(dir) <==> InDirectory(dir, x)
  {
    hide Numbered, InsertedByNumber, AscendingNumbers;
    if dir != [] {
      var front, last := dir[..|dir| - 1], dir[|dir| - 1];
      SortedEntriesCorrect(front);
      var s := SortedEntries(front);
      assert forall x :: InDirectory(dir, x) <==> InDirectory(front, x) || (Numbered(last.0) == Some(x.0) && last.1 == x.1);
      if Numbered(last.0).Some? {
        assert forall x :: x in s ==> x.0 != Numbered(last.0).value;
        InsertedMembers((Numbered(last.0).value, last.1), s);
      }
    } else {
      EmptyAscending();
    }
  }

  /** The directory holds exactly the files of turns 0 to n-1, as they were written. */
  ghost predicate Holds(dir: seq<(string, string)>, turns: seq<Turn>) {
    && |turns| <= U32_LIMIT
    && (forall n :: 0 <= n < |turns| ==> (FileName(n), Composed(turns[n])) in dir)
    && (forall i :: 0 <= i < |dir| && Numbered(dir[i].0).Some? ==>
          Numbered(dir[i].0).value < |turns| && dir[i].1 == Composed(turns[Numbered(dir[i].0).value]))
    && (forall i, j :: 0 <= i < j < |dir| && Numbered(dir[i].0).Some? ==> Numbered(dir[i].0) != Numbered(dir[j].0))
  }

  ghost predicate HasNumber(s: seq<Entry>, m: nat) {
    exists i :: 0 <= i < |s| && s[i].0 == m
  }

  lemma MemberHasNumber(s: seq<Entry>, e: Entry)
    requires e in s
    ensures HasNumber(s, e.0)
  {
    var i :| 0 <= i < |s| && s[i] == e;
    assert s[i].0 == e.0;
  }

  ghost predicate Dense(s: seq<Entry>, n: nat) {
    && AscendingNumbers(s)
    && (forall i :: 0 <= i < |s| ==> s[i].0 < n)
    && (forall m: nat :: m < n ==> HasNumber(s, m))
  }

  /** Positions are lower bounds of ascending numbers. */
  lemma {:induction false} LowerBound(s: seq<Entry>, k: nat)
    requires AscendingNumbers(s) && k < |s|
    ensures s[k].0 >= k
  {
    if k > 0 {
      LowerBound(s, k - 1);
    }
  }

  /** Ascending entries that contain each of 0 to n-1 are numbered by their position. */
  lemma {:induction false} DensePosition(s: seq<Entry>, n: nat, k: nat)
    requires Dense(s, n) && k < |s|
    ensures s[k].0 == k
  {
    LowerBound(s, k);
    forall j | 0 <= j < k ensures s[j].0 == j {
      DensePosition(s, n, j);
    }
    assert HasNumber(s, k);
    var i :| 0 <= i < |s| && s[i].0 == k;
  }

  lemma DenseLength(s: seq<Entry>, n: nat)
    requires Dense(s, n)
    ensures |s| == n
  {
    forall k | 0 <= k < |s| ensures s[k].0 == k {
      DensePosition(s, n, k);
    }
    assert s != [] ==> s[|s| - 1].0 < n;
    assert |s| < n ==> HasNumber(s, |s|);
  }

  /** The turn a reader gets back. */
  function ReadBack(t: Turn): Turn {
    t.(content := TrimEnd(t.content))
  }

  lemma {:induction false} ParsedAllOf(s: seq<Entry>, turns: seq<Turn>)
    requires |s| == |turns| && forall i :: 0 <= i < |s| ==> Representable(turns[i]) && s[i].1 == Composed(turns[i])
    ensures |ParsedAll(s)| == |turns| && forall i :: 0 <= i < |turns| ==> ParsedAll(s)[i] == ReadBack(turns[i])
  {
    hide Parsed, Composed, Representable;
    if s != [] {
      ParsedAllOf(s[..|s| - 1], turns[..|turns| - 1]);
      ParseComposed(turns[|turns| - 1]);
    }
  }

  lemma SortedIsDense(dir: seq<(string, string)>, turns: seq<Turn>)
    requires Holds(dir, turns)
    ensures Dense(SortedEntries(dir), |turns|)
    ensures forall x :: x in SortedEntries(dir) ==> x.0 < |turns| && x.1 == Composed(turns[x.0])
  {
    hide Numbered, Composed, FileName;
    SortedEntriesCorrect(dir);
    var s := SortedEntries(dir);
    forall i | 0 <= i < |s| ensures s[i].0 < |turns| {
      assert s[i] in s;
    }
    forall m: nat | m < |turns| ensures HasNumber(s, m) {
      FileNameRead(m);
      assert (FileName(m), Composed(turns[m])) in dir;
      MemberHasNumber(s, (m, Composed(turns[m])));
    }
  }

  /** Reading a session gives every recorded turn once, in the order of its number, with trimmed content. */
  lemma SessionReadBack(dir: seq<(string, string)>, turns: seq<Turn>)
    requires Holds(dir, turns) && forall i :: 0 <= i < |turns| ==> Representable(turns[i])
    ensures var read := ParsedAll(SortedEntries(dir));
            |read| == |turns| && forall i :: 0 <= i < |turns| ==> read[i] == ReadBack(turns[i])
  {
    hide Composed, Parsed, Representable, Holds;
    SortedIsDense(dir, turns);
    var s := SortedEntries(dir);
    DenseLength(s, |turns|);
    forall i | 0 <= i < |s| ensures s[i].1 == Composed(turns[i]) {
      DensePosition(s, |turns|, i);
      assert s[i] in s;
    }
    ParsedAllOf(s, turns);
  }
}
