/** Chunks of a canonical Markdown blob: one per chat message, or pieces of bounded weight. */
module Produce {
  import opened ChatUnits
  import opened Options
  import opened TextScan
  import opened TokenBoundaries
  import opened TokenBudget
  import opened Unicode

  datatype SourceKind = Chat | Document

  /** What the chunker takes from outside, for one source: chunk identifiers and the rough token count. */
  datatype Outside<!Id> = Outside(chunkId: (SourceKind, nat, string) -> Id, approx: string -> nat)

  datatype Chunk<Id> = Chunk(id: Id, content: string, tokenCount: nat, seqInSource: nat, partialMessage: bool)

  /** A chunk without its place in the batch. */
  datatype Body<Id> = Body(id: Id, content: string, tokenCount: nat, partialMessage: bool)

  function AsU32(n: nat): nat {
    n % 0x1_0000_0000
  }

  function BodyOf<Id>(o: Outside<Id>, kind: SourceKind, part: nat, content: string, partialMessage: bool): Body<Id> {
    Body(o.chunkId(kind, AsU32(part), content), content, o.approx(content), partialMessage)
  }

  /** Consecutive pieces, identified by their place among each other. */
  function PieceBodies<Id>(o: Outside<Id>, kind: SourceKind, pieces: seq<string>, partialMessage: bool): seq<Body<Id>> {
    seq(|pieces|, i requires 0 <= i < |pieces| => BodyOf(o, kind, i, pieces[i], partialMessage))
  }

  /** A message within four times the tokens in characters is one chunk; a longer one is cut. */
  function UnitBodies<Id>(o: Outside<Id>, t: Tokens, unit: string, maxTokens: nat): seq<Body<Id>>
    requires Sound(t)
  {
    if |unit| > maxTokens * 4 then PieceBodies(o, Chat, SplitPieces(t, unit, maxTokens), true)
    else [BodyOf(o, Chat, 0, unit, false)]
  }

  function AllBodies<Id>(o: Outside<Id>, t: Tokens, units: seq<string>, maxTokens: nat): seq<Body<Id>>
    requires Sound(t)
  {
    if units == [] then []
    else AllBodies(o, t, units[..|units| - 1], maxTokens) + UnitBodies(o, t, units[|units| - 1], maxTokens)
  }

  function ChatBodies<Id>(o: Outside<Id>, t: Tokens, md: string, maxTokens: nat): seq<Body<Id>>
    requires Sound(t)
  {
    AllBodies(o, t, ChatMessages(md), maxTokens)
  }

  /** The chunks of a blob; an empty chat is one empty chunk. */
  function Bodies<Id>(o: Outside<Id>, t: Tokens, kind: SourceKind, md: string, maxTokens: nat): seq<Body<Id>>
    requires Sound(t)
  {
    match kind
    case Document => PieceBodies(o, Document, SplitPieces(t, md, maxTokens), false)
    case Chat =>
      var bodies := ChatBodies(o, t, md, maxTokens);
      if bodies == [] then [Body(o.chunkId(Chat, 0, ""), "", 0, false)] else bodies
  }

  // ---------- batches that overlap ----------

  lemma {:induction false} BodiesJoin<Id>(o: Outside<Id>, t: Tokens, a: seq<string>, b: seq<string>, maxTokens: nat)
    requires Sound(t)
    ensures AllBodies(o, t, a + b, maxTokens) == AllBodies(o, t, a, maxTokens) + AllBodies(o, t, b, maxTokens)
    decreases |b|
  {
    hide Sound, UnitBodies;
    if b == [] {
      assert a + b == a;
    } else {
      var front := b[..|b| - 1];
      assert (a + b)[..|a + b| - 1] == a + front;
      BodiesJoin(o, t, a, front, maxTokens);
    }
  }

  /** A batch cut before a message header has the chunks of both halves, whatever came before. */
  lemma BatchesJoin<Id>(o: Outside<Id>, t: Tokens, l: string, r: string, maxTokens: nat)
    requires Sound(t) && LineEnded(l) && IsHeader(r) && (Trim(l) == [] || HasHeader(l))
    ensures ChatBodies(o, t, l + r, maxTokens) == ChatBodies(o, t, l, maxTokens) + ChatBodies(o, t, r, maxTokens)
  {
    hide Sound, AllBodies, ChatMessages, Trim, LineEnded, IsHeader, HasHeader;
    SplitsAtBoundary(l, r);
    BodiesJoin(o, t, ChatMessages(l), ChatMessages(r), maxTokens);
  }

  /**
   * Messages delivered twice, at the end of one batch and at the start of another, make the same
   * chunks both times: same identifiers, contents, token counts and flags, wherever they stand.
   */
  lemma OverlapKeepsChunks<Id>(o: Outside<Id>, t: Tokens, earlier: string, shared: string, space: string, later: string, maxTokens: nat)
    requires Sound(t) && LineEnded(earlier) && (Trim(earlier) == [] || HasHeader(earlier))
    requires IsHeader(shared) && IsHeader(later)
    requires AllSpace(space) && (space != [] ==> space[0] == '\n') && LineEnded(shared + space)
    ensures ChatBodies(o, t, earlier + shared, maxTokens) == ChatBodies(o, t, earlier, maxTokens) + ChatBodies(o, t, shared, maxTokens)
    ensures ChatBodies(o, t, shared + space + later, maxTokens) == ChatBodies(o, t, shared, maxTokens) + ChatBodies(o, t, later, maxTokens)
  {
    hide Sound, AllBodies, Trim, LineEnded, IsHeader, HasHeader, AllSpace, ChatMessages, Messages;
    BatchesJoin(o, t, earlier, shared, maxTokens);
    MessageFirst(shared);
    BlankLinesAfter(shared, space);
    MessagesMeanHeader(shared + space);
    BatchesJoin(o, t, shared + space, later, maxTokens);
  }

  lemma MessageFirst(md: string)
    requires IsHeader(md)
    ensures Messages(md) != []
  {
    hide IsHeader, MessagesFrom, LinesInclusive;
    HeaderFirst(md);
    HeaderMakesMessage(LinesInclusive(md), None);
  }

  lemma MessagesMeanHeader(md: string)
    requires Messages(md) != []
    ensures HasHeader(md)
  {
    hide IsHeader, MessagesFrom, LinesInclusive;
    HeaderMakesMessage(LinesInclusive(md), None);
  }

  // ---------- sizes ----------

  /** A whole message is bounded in characters; its pieces weigh no more than the budget when no character is too heavy. */
  lemma {:induction false} ChatBodiesFit<Id(!new)>(o: Outside<Id>, t: Tokens, units: seq<string>, maxTokens: nat, b: Body<Id>)
    requires Sound(t) && b in AllBodies(o, t, units, maxTokens)
    ensures !b.partialMessage ==> b.content in units && |b.content| <= maxTokens * 4
    ensures b.partialMessage && (forall u :: u in units ==> LightCharacters(t, u, Budget(maxTokens))) ==> t.est(b.content) <= Budget(maxTokens)
    decreases |units|
  {
    hide Sound, LightCharacters, SplitPieces, Budget;
    var front, last := units[..|units| - 1], units[|units| - 1];
    assert units == front + [last];
    if b in AllBodies(o, t, front, maxTokens) {
      ChatBodiesFit(o, t, front, maxTokens, b);
    } else if |last| > maxTokens * 4 {
      var pieces := SplitPieces(t, last, maxTokens);
      var i :| 0 <= i < |pieces| && b == PieceBodies(o, Chat, pieces, true)[i];
      if LightCharacters(t, last, Budget(maxTokens)) {
        PiecesFit(t, last, maxTokens, i);
      }
    }
  }

  // ---------- the loop ----------

  function Unplaced<Id>(chunks: seq<Chunk<Id>>): seq<Body<Id>> {
    seq(|chunks|, i requires 0 <= i < |chunks| => Body(chunks[i].id, chunks[i].content, chunks[i].tokenCount, chunks[i].partialMessage))
  }

  /** Sequence numbers count from zero, as far as 32 bits go. */
  ghost predicate InSequence<Id>(chunks: seq<Chunk<Id>>) {
    forall i :: 0 <= i < |chunks| ==> chunks[i].seqInSource == AsU32(i)
  }

  function Contents<Id>(chunks: seq<Chunk<Id>>): seq<string> {
    seq(|chunks|, i requires 0 <= i < |chunks| => chunks[i].content)
  }

  /** Each chunk is named by its kind, its place among these and its own content, and counted by its own content. */
  ghost predicate Labelled<Id>(o: Outside<Id>, kind: SourceKind, chunks: seq<Chunk<Id>>, partialMessage: bool) {
    forall i: nat :: i < |chunks| ==>
      && chunks[i].id == o.chunkId(kind, AsU32(i), chunks[i].content)
      && chunks[i].tokenCount == o.approx(chunks[i].content)
      && chunks[i].partialMessage == partialMessage
  }

  /** The chunks of one message: the message as a whole, or pieces that rebuild it. */
  ghost predicate TellsUnit<Id>(o: Outside<Id>, unit: string, maxTokens: nat, chunks: seq<Chunk<Id>>) {
    if |unit| <= maxTokens * 4 then Contents(chunks) == [unit] && Labelled(o, Chat, chunks, false)
    else Rebuilds(Contents(chunks), unit) && Labelled(o, Chat, chunks, true)
  }

  /** Among the chunks, those of message `u` are the ones from `starts[u]` up to `starts[u + 1]`, at least one. */
  ghost predicate TellsUnitAt<Id>(o: Outside<Id>, units: seq<string>, maxTokens: nat, chunks: seq<Chunk<Id>>, starts: seq<nat>, u: nat) {
    && u < |units| && u + 1 < |starts| && starts[u] < starts[u + 1] <= |chunks|
    && TellsUnit(o, units[u], maxTokens, chunks[starts[u]..starts[u + 1]])
  }

  /** The chunks come message by message. */
  ghost predicate TellsUnits<Id>(o: Outside<Id>, units: seq<string>, maxTokens: nat, chunks: seq<Chunk<Id>>, starts: seq<nat>) {
    && |starts| == |units| + 1 && starts[0] == 0 && starts[|units|] == |chunks|
    && forall u: nat :: u < |units| ==> TellsUnitAt(o, units, maxTokens, chunks, starts, u)
  }

  ghost predicate TellsChat<Id>(o: Outside<Id>, units: seq<string>, maxTokens: nat, chunks: seq<Chunk<Id>>) {
    if units == [] then chunks == [Chunk(o.chunkId(Chat, 0, ""), "", 0, 0, false)]
    else exists starts :: TellsUnits(o, units, maxTokens, chunks, starts)
  }

  lemma PiecesLabelled<Id>(o: Outside<Id>, kind: SourceKind, pieces: seq<string>, partialMessage: bool, chunks: seq<Chunk<Id>>)
    requires Unplaced(chunks) == PieceBodies(o, kind, pieces, partialMessage)
    ensures Contents(chunks) == pieces && Labelled(o, kind, chunks, partialMessage)
  {
    hide AsU32;
    var bodies := PieceBodies(o, kind, pieces, partialMessage);
    assert |chunks| == |pieces|;
    forall i: nat | i < |chunks| ensures chunks[i].content == pieces[i] && Unplaced(chunks)[i] == BodyOf(o, kind, i, pieces[i], partialMessage) {
      assert Unplaced(chunks)[i] == bodies[i];
    }
  }

  lemma UnitTold<Id>(o: Outside<Id>, t: Tokens, unit: string, maxTokens: nat, chunks: seq<Chunk<Id>>)
    requires Sound(t) && Unplaced(chunks) == UnitBodies(o, t, unit, maxTokens)
    ensures TellsUnit(o, unit, maxTokens, chunks) && chunks != []
  {
    hide Sound, SplitPieces, Unplaced, PieceBodies, Labelled, WellCut, SegmentBudget, Budget;
    if |unit| > maxTokens * 4 {
      var spans := PiecesAreStretches(t, unit, maxTokens);
      PiecesLabelled(o, Chat, SplitPieces(t, unit, maxTokens), true, chunks);
    } else {
      OnePieceBody(o, unit);
      PiecesLabelled(o, Chat, [unit], false, chunks);
    }
  }

  lemma OnePieceBody<Id>(o: Outside<Id>, unit: string)
    ensures PieceBodies(o, Chat, [unit], false) == [BodyOf(o, Chat, 0, unit, false)]
  {
  }

  lemma UnplacedSplit<Id>(chunks: seq<Chunk<Id>>, k: nat)
    requires k <= |chunks|
    ensures Unplaced(chunks[..k]) == Unplaced(chunks)[..k] && Unplaced(chunks[k..]) == Unplaced(chunks)[k..]
    ensures |Unplaced(chunks)| == |chunks|
  {
  }

  lemma {:induction false} UnitsTold<Id>(o: Outside<Id>, t: Tokens, units: seq<string>, maxTokens: nat, chunks: seq<Chunk<Id>>)
    returns (starts: seq<nat>)
    requires Sound(t) && Unplaced(chunks) == AllBodies(o, t, units, maxTokens)
    ensures TellsUnits(o, units, maxTokens, chunks, starts)
    decreases |units|
  {
    hide Sound, Unplaced, UnitBodies, TellsUnit;
    Placed(chunks);
    if units == [] {
      starts := [0];
    } else {
      var front, last := units[..|units| - 1], units[|units| - 1];
      var k := |AllBodies(o, t, front, maxTokens)|;
      UnplacedSplit(chunks, k);
      var before := UnitsTold(o, t, front, maxTokens, chunks[..k]);
      UnitTold(o, t, last, maxTokens, chunks[k..]);
      starts := before + [|chunks|];
      UnitsAppend(o, units, maxTokens, chunks, k, before);
    }
  }

  lemma UnitsAppend<Id>(o: Outside<Id>, units: seq<string>, maxTokens: nat, chunks: seq<Chunk<Id>>, k: nat, before: seq<nat>)
    requires units != [] && k < |chunks|
    requires TellsUnits(o, units[..|units| - 1], maxTokens, chunks[..k], before)
    requires TellsUnit(o, units[|units| - 1], maxTokens, chunks[k..])
    ensures TellsUnits(o, units, maxTokens, chunks, before + [|chunks|])
  {
    hide TellsUnit;
    var starts := before + [|chunks|];
    forall u: nat | u < |units| ensures TellsUnitAt(o, units, maxTokens, chunks, starts, u) {
      if u < |units| - 1 {
        assert TellsUnitAt(o, units[..|units| - 1], maxTokens, chunks[..k], before, u);
        SamePart(chunks, k, before[u], before[u + 1]);
      } else {
        assert chunks[k..|chunks|] == chunks[k..];
      }
    }
  }

  lemma SamePart<T>(s: seq<T>, k: nat, a: nat, b: nat)
    requires a <= b <= k <= |s|
    ensures s[..k][a..b] == s[a..b]
  {
  }

  lemma DocumentTold<Id>(o: Outside<Id>, t: Tokens, md: string, maxTokens: nat, chunks: seq<Chunk<Id>>)
    requires Sound(t) && Unplaced(chunks) == PieceBodies(o, Document, SplitPieces(t, md, maxTokens), false)
    ensures Rebuilds(Contents(chunks), md) && Labelled(o, Document, chunks, false) && chunks != []
  {
    hide Sound, SplitPieces, Unplaced, PieceBodies, Labelled, WellCut, SegmentBudget, Budget;
    var spans := PiecesAreStretches(t, md, maxTokens);
    PiecesLabelled(o, Document, SplitPieces(t, md, maxTokens), false, chunks);
  }

  /** The chunks of a document rebuild it; the chunks of a chat tell its messages, in order. */
  method ChunkMarkdown<Id>(o: Outside<Id>, t: Tokens, kind: SourceKind, md: string, optMaxTokens: nat) returns (chunks: seq<Chunk<Id>>)
    requires Sound(t) && optMaxTokens * OVERLAP_MAX_PERCENT <= U32_MAX
    ensures Unplaced(chunks) == Bodies(o, t, kind, md, Max(optMaxTokens, 1))
    ensures |chunks| > 0 && InSequence(chunks)
    ensures |chunks| <= 0x1_0000_0000 ==> forall i :: 0 <= i < |chunks| ==> chunks[i].seqInSource == i
    ensures kind == Document ==> Rebuilds(Contents(chunks), md) && Labelled(o, Document, chunks, false)
    ensures kind == Chat ==> TellsChat(o, ChatMessages(md), Max(optMaxTokens, 1), chunks)
  {
    hide Sound, SplitPieces, Unplaced, InSequence, PieceBodies, Rebuilds, Contents, Labelled, TellsUnits, ChatMessages, AllBodies;
    var maxTokens := if optMaxTokens > 1 then optMaxTokens else 1;
    NonePlaced<Id>();
    match kind {
      case Document =>
        var units := SplitByTokenBudget(t, md, maxTokens);
        chunks := AppendPieces(o, Document, units, false, []);
        DocumentTold(o, t, md, maxTokens, chunks);
      case Chat =>
        chunks := ChunkChat(o, t, md, maxTokens);
        Placed(chunks);
        ghost var starts := UnitsTold(o, t, ChatMessages(md), maxTokens, chunks);
        StartsTell(o, ChatMessages(md), maxTokens, chunks, starts);
        if chunks == [] {
          chunks := [Chunk(o.chunkId(Chat, 0, ""), "", 0, 0, false)];
          OnePlaced(chunks[0]);
        }
    }
    Placed(chunks);
  }

  /** There is no chunk exactly when there is no message. */
  lemma StartsTell<Id>(o: Outside<Id>, units: seq<string>, maxTokens: nat, chunks: seq<Chunk<Id>>, starts: seq<nat>)
    requires TellsUnits(o, units, maxTokens, chunks, starts)
    ensures chunks == [] <==> units == []
  {
    hide TellsUnit;
    if units != [] {
      assert TellsUnitAt(o, units, maxTokens, chunks, starts, 0);
    }
  }

  lemma NonePlaced<Id>()
    ensures Unplaced<Id>([]) == [] && InSequence<Id>([])
    ensures forall bodies: seq<Body<Id>> :: [] + bodies == bodies
  {
  }

  lemma OnePlaced<Id>(chunk: Chunk<Id>)
    requires chunk.seqInSource == 0
    ensures Unplaced([chunk]) == [Body(chunk.id, chunk.content, chunk.tokenCount, chunk.partialMessage)] && InSequence([chunk])
  {
  }

  lemma Placed<Id>(chunks: seq<Chunk<Id>>)
    ensures |Unplaced(chunks)| == |chunks|
    ensures InSequence(chunks) && |chunks| <= 0x1_0000_0000 ==> forall i :: 0 <= i < |chunks| ==> chunks[i].seqInSource == i
  {
  }

  method ChunkChat<Id>(o: Outside<Id>, t: Tokens, md: string, maxTokens: nat) returns (out: seq<Chunk<Id>>)
    requires Sound(t) && maxTokens * OVERLAP_MAX_PERCENT <= U32_MAX
    ensures Unplaced(out) == ChatBodies(o, t, md, maxTokens) && InSequence(out)
  {
    hide Sound, SplitPieces, ChatMessages;
    var units := SplitChatMessages(md);
    out := [];
    for i := 0 to |units|
      invariant Unplaced(out) == AllBodies(o, t, units[..i], maxTokens) && InSequence(out)
    {
      assert units[..i + 1][..i] == units[..i];
      if |units[i]| > maxTokens * 4 {
        var pieces := SplitByTokenBudget(t, units[i], maxTokens);
        out := AppendPieces(o, Chat, pieces, true, out);
      } else {
        out := Append(o, Chat, 0, units[i], false, out);
      }
    }
    assert units[..|units|] == units;
  }

  method Append<Id>(o: Outside<Id>, kind: SourceKind, part: nat, content: string, partialMessage: bool, out: seq<Chunk<Id>>)
    returns (chunks: seq<Chunk<Id>>)
    requires InSequence(out)
    ensures Unplaced(chunks) == Unplaced(out) + [BodyOf(o, kind, part, content, partialMessage)] && InSequence(chunks)
  {
    chunks := out + [Chunk(o.chunkId(kind, AsU32(part), content), content, o.approx(content), AsU32(|out|), partialMessage)];
  }

  method AppendPieces<Id>(o: Outside<Id>, kind: SourceKind, pieces: seq<string>, partialMessage: bool, out: seq<Chunk<Id>>)
    returns (chunks: seq<Chunk<Id>>)
    requires InSequence(out)
    ensures Unplaced(chunks) == Unplaced(out) + PieceBodies(o, kind, pieces, partialMessage) && InSequence(chunks)
  {
    hide Unplaced, InSequence;
    chunks := out;
    ghost var bodies := PieceBodies(o, kind, pieces, partialMessage);
    for part := 0 to |pieces|
      invariant Unplaced(chunks) == Unplaced(out) + bodies[..part] && InSequence(chunks)
    {
      chunks := Append(o, kind, part, pieces[part], partialMessage, chunks);
      assert bodies[..part + 1] == bodies[..part] + [bodies[part]];
    }
    assert bodies[..|pieces|] == bodies;
  }
}
